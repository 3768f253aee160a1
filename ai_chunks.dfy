/**
 * The chunk-enrichment pass of the ingestion pipeline. Image file names are
 * picked out of a chunk's text the way `re.findall` scans it for
 * `[\w-]+\.(?:jpg|jpeg|png|gif|bmp|webp)` with IGNORECASE, and joined onto the
 * image directory. Every chunk is then sent to the language model together
 * with its neighbours and its images, and the records `object_parser` reads
 * from the replies are concatenated in chunk order.
 *
 * The model is an oracle: for each request it yields the results of the
 * successive calls the retry loop makes (None for a call that raised). A
 * reply is accepted once it is non-empty.
 */
module AiChunks {
  import opened Wrappers
  import opened PyStrings
  import opened PyJson
  import opened PosixPath
  import opened EmbeddingRecords

  const EXTENSIONS: seq<string> := ["jpg", "jpeg", "png", "gif", "bmp", "webp"]
  const DEFAULT_IMAGE_DIR := "./izvucene_slike"
  const NO_PREVIOUS := "Nema prethodnog sadr\U{017E}aja."
  const NO_NEXT := "Nema slede\U{0107}eg sadr\U{017E}aja."

  // ---------------------------------------------------------------
  // Image names
  // ---------------------------------------------------------------

  /** `[\w-]`. */
  predicate NameChar(c: char) {
    IsWordChar(c) || c == '-'
  }

  /** The end of the run of name characters that starts at `p`. */
  function RunEnd(s: string, p: nat): (q: nat)
    requires p <= |s|
    ensures p <= q <= |s|
    ensures forall j :: p <= j < q ==> NameChar(s[j])
    ensures q < |s| ==> !NameChar(s[q])
    decreases |s| - p
  {
    if p < |s| && NameChar(s[p]) then RunEnd(s, p + 1) else p
  }

  /**
   * The length of the first alternative in `exts` that matches at `j`,
   * ignoring the case of ASCII letters; None when none does.
   */
  function ExtensionAt(s: string, j: nat, exts: seq<string>): (r: Option<nat>)
    ensures r.Some? ==> j + r.value <= |s|
    decreases |exts|
  {
    if exts == [] then None
    else if j + |exts[0]| <= |s| && Lower(s[j..j + |exts[0]|]) == exts[0] then Some(|exts[0]|)
    else ExtensionAt(s, j, exts[1..])
  }

  /** What matched is one of the alternatives, up to the case of its letters. */
  lemma {:induction false} ExtensionMatched(s: string, j: nat, exts: seq<string>)
    requires ExtensionAt(s, j, exts).Some?
    ensures Lower(s[j..j + ExtensionAt(s, j, exts).value]) in exts
    decreases |exts|
  {
    if !(j + |exts[0]| <= |s| && Lower(s[j..j + |exts[0]|]) == exts[0]) {
      ExtensionMatched(s, j, exts[1..]);
    }
  }

  /**
   * The pattern matches at `p`: a non-empty run of name characters, a dot,
   * and an extension. Backing off the greedy run never helps, since a dot is
   * not a name character.
   */
  predicate MatchAt(s: string, p: nat) {
    p < |s| &&
    var q := RunEnd(s, p);
    q > p && q < |s| && s[q] == '.' && ExtensionAt(s, q + 1, EXTENSIONS).Some?
  }

  /** Where the match at `p` ends. */
  function MatchEnd(s: string, p: nat): (e: nat)
    requires MatchAt(s, p)
    ensures p < e <= |s|
  {
    var q := RunEnd(s, p);
    q + 1 + ExtensionAt(s, q + 1, EXTENSIONS).value
  }

  /**
   * The spans `findall` reports from position `p` on: every span is a match,
   * and they come in order without overlapping.
   */
  function Spans(s: string, p: nat): (r: seq<(nat, nat)>)
    requires p <= |s|
    decreases |s| - p
    ensures forall i :: 0 <= i < |r| ==> p <= r[i].0 < r[i].1 <= |s|
  {
    if p == |s| then []
    else if MatchAt(s, p) then
      var e := MatchEnd(s, p);
      var rest := Spans(s, e);
      var r := [(p, e)] + rest;
      assert forall i :: 1 <= i < |r| ==> r[i] == rest[i - 1];
      r
    else
      Spans(s, p + 1)
  }

  /** Every span is a match, and the spans come in order without overlapping. */
  predicate SpansSound(s: string, r: seq<(nat, nat)>) {
    && (forall i :: 0 <= i < |r| ==> MatchAt(s, r[i].0) && r[i].1 == MatchEnd(s, r[i].0))
    && (forall i :: 0 < i < |r| ==> r[i - 1].1 <= r[i].0)
  }

  lemma SoundCons(s: string, p: nat, rest: seq<(nat, nat)>)
    requires MatchAt(s, p) && SpansSound(s, rest)
    requires rest != [] ==> MatchEnd(s, p) <= rest[0].0
    ensures SpansSound(s, [(p, MatchEnd(s, p))] + rest)
  {
    var r := [(p, MatchEnd(s, p))] + rest;
    assert forall i :: 1 <= i < |r| ==> r[i] == rest[i - 1];
  }

  lemma {:induction false} SpansMatch(s: string, p: nat)
    requires p <= |s|
    ensures SpansSound(s, Spans(s, p))
    decreases |s| - p
  {
    if p < |s| {
      if MatchAt(s, p) {
        SpansMatch(s, MatchEnd(s, p));
        SoundStep(s, p);
      } else {
        SpansMatch(s, p + 1);
        SkipStep(s, p);
      }
    }
  }

  /** No match at `p`: the spans from `p` are the spans from `p + 1`. */
  lemma SkipStep(s: string, p: nat)
    requires p < |s| && !MatchAt(s, p) && SpansSound(s, Spans(s, p + 1))
    ensures SpansSound(s, Spans(s, p))
  {
    SpansStep(s, p);
  }

  /** A match at `p` followed by sound spans from its end gives sound spans from `p`. */
  lemma SoundStep(s: string, p: nat)
    requires p < |s| && MatchAt(s, p) && SpansSound(s, Spans(s, MatchEnd(s, p)))
    ensures SpansSound(s, Spans(s, p))
  {
    SpansStep(s, p);
    SoundCons(s, p, Spans(s, MatchEnd(s, p)));
  }

  /** One step of the scan: a match at `p` is the first span, else the scan moves on. */
  lemma SpansStep(s: string, p: nat)
    requires p < |s|
    ensures MatchAt(s, p) ==> p < MatchEnd(s, p) <= |s|
    ensures MatchAt(s, p) ==> var rest := Spans(s, MatchEnd(s, p));
      Spans(s, p) == [(p, MatchEnd(s, p))] + rest && (rest != [] ==> MatchEnd(s, p) <= rest[0].0)
    ensures !MatchAt(s, p) ==> Spans(s, p) == Spans(s, p + 1)
  {
  }

  /** No match starts before the first span (or anywhere, when there is none). */
  lemma {:induction false} SpansFirst(s: string, p: nat, j: nat)
    requires p <= j < |s|
    requires var r := Spans(s, p); r == [] || j < r[0].0
    ensures !MatchAt(s, j)
    decreases |s| - p
  {
    if !MatchAt(s, p) {
      if j > p {
        SpansFirst(s, p + 1, j);
      }
    }
  }

  /**
   * Each span is the leftmost match from where the previous one ended: no
   * match starts in a gap between two spans or after the last one.
   */
  lemma {:induction false} SpansGaps(s: string, p: nat, i: nat, j: nat)
    requires p <= |s|
    requires var r := Spans(s, p); 0 < i <= |r| && r[i - 1].1 <= j < |s| && (i == |r| || j < r[i].0)
    ensures !MatchAt(s, j)
    decreases |s| - p
  {
    if MatchAt(s, p) {
      var e := MatchEnd(s, p);
      var r := Spans(s, p);
      var rest := Spans(s, e);
      assert r == [(p, e)] + rest;
      if i == 1 {
        SpansFirst(s, e, j);
      } else {
        assert r[i - 1] == rest[i - 2];
        SpansGaps(s, e, i - 1, j);
      }
    } else {
      SpansGaps(s, p + 1, i, j);
    }
  }

  /** `re.findall(pattern, tekst, re.IGNORECASE)`: the matched texts, in order. */
  function ImageNames(s: string): (names: seq<string>)
    ensures |names| == |Spans(s, 0)|
  {
    var sp := Spans(s, 0);
    seq(|sp|, i requires 0 <= i < |sp| => s[sp[i].0..sp[i].1])
  }

  /** `izdvoj_imena_slika_iz_stringa`: every name joined onto the image directory. */
  function ImagePaths(s: string, dir: string): seq<string> {
    var names := ImageNames(s);
    seq(|names|, i requires 0 <= i < |names| => PathJoin(dir, names[i]))
  }

  /** A whole image name: name characters up to a dot, then one of the extensions. */
  predicate IsImageName(n: string) {
    var q := RunEnd(n, 0);
    0 < q < |n| && n[q] == '.' && Lower(n[q + 1..]) in EXTENSIONS
  }

  /** The run inside a slice ends where the run in the whole text does. */
  lemma {:induction false} RunEndSlice(s: string, a: nat, b: nat, j: nat)
    requires a <= j <= b <= |s| && RunEnd(s, j) < b
    ensures RunEnd(s[a..b], j - a) == RunEnd(s, j) - a
    decreases |s| - j
  {
    if j < |s| && NameChar(s[j]) {
      assert s[a..b][j - a] == s[j];
      RunEndSlice(s, a, b, j + 1);
    } else {
      assert s[a..b][j - a] == s[j];
    }
  }

  /** Each span, read out of the text, is a whole image name. */
  lemma MatchIsImageName(s: string, p: nat)
    requires MatchAt(s, p)
    ensures IsImageName(s[p..MatchEnd(s, p)])
  {
    var q := RunEnd(s, p);
    var e := MatchEnd(s, p);
    ExtensionMatched(s, q + 1, EXTENSIONS);
    NameFromSlice(s, p, q, e, EXTENSIONS);
  }

  /** Cutting a run, a dot and an extension out of the text keeps their shape. */
  lemma NameFromSlice(s: string, p: nat, q: nat, e: nat, exts: seq<string>)
    requires p < q < e <= |s| && RunEnd(s, p) == q && s[q] == '.' && Lower(s[q + 1..e]) in exts
    ensures var n := s[p..e]; RunEnd(n, 0) == q - p && n[q - p] == '.' && Lower(n[q - p + 1..]) in exts
  {
    var n := s[p..e];
    RunEndSlice(s, p, e, p);
    assert n[q - p] == s[q];
    assert n[q - p + 1..] == s[q + 1..e];
  }

  /** The `i`-th name is the text of the `i`-th span, and a whole image name. */
  lemma NameAt(s: string, i: nat)
    requires i < |ImageNames(s)|
    ensures var sp := Spans(s, 0); ImageNames(s)[i] == s[sp[i].0..sp[i].1]
    ensures IsImageName(ImageNames(s)[i])
    ensures OccursAt(s, ImageNames(s)[i], Spans(s, 0)[i].0)
  {
    var sp := Spans(s, 0);
    var a, b := sp[i].0, sp[i].1;
    NameText(s, i);
    SpanIsMatch(s, i);
    MatchIsImageName(s, a);
    SliceOccurs(s, a, b);
  }

  lemma NameText(s: string, i: nat)
    requires i < |ImageNames(s)|
    ensures var sp := Spans(s, 0); ImageNames(s)[i] == s[sp[i].0..sp[i].1]
  {
  }

  lemma SpanIsMatch(s: string, i: nat)
    requires i < |Spans(s, 0)|
    ensures var sp := Spans(s, 0); MatchAt(s, sp[i].0) && sp[i].1 == MatchEnd(s, sp[i].0)
  {
    SpansMatch(s, 0);
  }

  /** A slice occurs where it was cut. */
  lemma SliceOccurs(s: string, a: nat, b: nat)
    requires a <= b <= |s|
    ensures OccursAt(s, s[a..b], a)
  {
  }

  /**
   * Every name found is a whole image name that occurs in the text, and the
   * names follow one another: each occurs at or after the end of the one
   * before.
   */
  lemma ImageNamesShape(s: string)
    ensures var names := ImageNames(s);
      forall i :: 0 <= i < |names| ==> IsImageName(names[i]) && OccursAt(s, names[i], Spans(s, 0)[i].0)
    ensures var sp := Spans(s, 0);
      forall i :: 0 < i < |sp| ==> sp[i - 1].0 + |ImageNames(s)[i - 1]| <= sp[i].0
  {
    NamesAreImageNames(s);
    NamesInOrder(s);
  }

  lemma NamesAreImageNames(s: string)
    ensures var names := ImageNames(s);
      forall i :: 0 <= i < |names| ==> IsImageName(names[i]) && OccursAt(s, names[i], Spans(s, 0)[i].0)
  {
    var names := ImageNames(s);
    forall i | 0 <= i < |names| ensures IsImageName(names[i]) && OccursAt(s, names[i], Spans(s, 0)[i].0) {
      NameAt(s, i);
    }
  }

  lemma NamesInOrder(s: string)
    ensures var sp := Spans(s, 0);
      forall i :: 0 < i < |sp| ==> sp[i - 1].0 + |ImageNames(s)[i - 1]| <= sp[i].0
  {
    var sp := Spans(s, 0);
    var names := ImageNames(s);
    SpansMatch(s, 0);
    forall i | 0 < i < |sp| ensures sp[i - 1].0 + |names[i - 1]| <= sp[i].0 {
      assert names[i - 1] == s[sp[i - 1].0..sp[i - 1].1];
    }
  }

  /** Text in which the pattern never matches gives no paths. */
  lemma NoMatchNoPaths(s: string, dir: string)
    ensures ImagePaths(s, dir) == [] <==> forall j :: 0 <= j < |s| ==> !MatchAt(s, j)
  {
    var sp := Spans(s, 0);
    if sp != [] {
      SpansMatch(s, 0);
      assert MatchAt(s, sp[0].0);
    } else {
      forall j | 0 <= j < |s| ensures !MatchAt(s, j) {
        SpansFirst(s, 0, j);
      }
    }
  }

  /** Text without a dot has no image names. */
  lemma NoDotNoPaths(s: string, dir: string)
    requires '.' !in s
    ensures ImagePaths(s, dir) == []
  {
    NoMatchNoPaths(s, dir);
    forall j | 0 <= j < |s| ensures !MatchAt(s, j) {
      var q := RunEnd(s, j);
      assert q < |s| ==> s[q] != '.';
    }
  }

  // ---------------------------------------------------------------
  // Neighbour window and the enrichment loop
  // ---------------------------------------------------------------

  /** What one model call is given: the chunk, its neighbours (or placeholders) and its images. */
  datatype ChunkRequest = ChunkRequest(current: string, previous: string, next: string, images: seq<string>)

  function Previous(chunks: seq<string>, i: nat): string
    requires i < |chunks|
  {
    if i > 0 then chunks[i - 1] else NO_PREVIOUS
  }

  function Next(chunks: seq<string>, i: nat): string
    requires i < |chunks|
  {
    if i < |chunks| - 1 then chunks[i + 1] else NO_NEXT
  }

  function RequestFor(chunks: seq<string>, i: nat, dir: string): ChunkRequest
    requires i < |chunks|
  {
    ChunkRequest(chunks[i], Previous(chunks, i), Next(chunks, i), ImagePaths(chunks[i], dir))
  }

  /**
   * The neighbour window: an inner chunk sees both neighbours, the first one
   * the "no previous" placeholder and the last one the "no next" placeholder.
   */
  lemma Window(chunks: seq<string>, i: nat, dir: string)
    requires i < |chunks|
    ensures var r := RequestFor(chunks, i, dir);
      && r.current == chunks[i]
      && (r.previous == if i == 0 then NO_PREVIOUS else chunks[i - 1])
      && (r.next == if i == |chunks| - 1 then NO_NEXT else chunks[i + 1])
      && r.images == ImagePaths(chunks[i], dir)
  {
  }

  /** A single chunk gets both placeholders. */
  lemma SingleChunk(c: string, dir: string)
    ensures RequestFor([c], 0, dir).previous == NO_PREVIOUS
    ensures RequestFor([c], 0, dir).next == NO_NEXT
  {
  }

  /**
   * The reply the retry loop accepts: the first call that returned a
   * non-empty string. None when no call in the list does, in which case the
   * loop would go on calling.
   */
  function Accepted(tries: seq<Option<string>>): (r: Option<string>)
    ensures r.Some? ==> r.value != ""
    ensures r.Some? <==> exists k :: 0 <= k < |tries| && tries[k].Some? && tries[k].value != ""
    decreases |tries|
  {
    if tries == [] then None
    else if tries[0].Some? && tries[0].value != "" then tries[0]
    else
      var r := Accepted(tries[1..]);
      assert forall k :: 1 <= k < |tries| ==> tries[k] == tries[1..][k - 1];
      r
  }

  /** Empty replies and raised calls before the accepted one are skipped. */
  lemma AcceptedFirst(tries: seq<Option<string>>, k: nat)
    requires k < |tries| && tries[k].Some? && tries[k].value != ""
    requires forall j :: 0 <= j < k ==> tries[j].None? || tries[j].value == ""
    ensures Accepted(tries) == tries[k]
    decreases k
  {
    if k > 0 {
      AcceptedFirst(tries[1..], k - 1);
    }
  }

  /** The requests of all chunks, in chunk order. */
  function Requests(chunks: seq<string>, dir: string): seq<ChunkRequest> {
    seq(|chunks|, i requires 0 <= i < |chunks| => RequestFor(chunks, i, dir))
  }

  /** The records `object_parser` reads from the accepted reply to a request; None when none is accepted. */
  function ChunkRecords(req: ChunkRequest, ai: ChunkRequest -> seq<Option<string>>,
                        decode: string -> Option<Json>, show: Json -> string): Option<seq<Json>>
  {
    match Accepted(ai(req))
    case None => None
    case Some(reply) => Some(ObjectParser(reply, decode, show))
  }

  /** One turn of the outer loop: one chunk's records are appended, and None on either side stays None. */
  function AddChunk(acc: Option<seq<Json>>, parsed: Option<seq<Json>>): Option<seq<Json>> {
    if acc.Some? && parsed.Some? then Some(acc.value + parsed.value) else None
  }

  /** The records collected for a list of requests, or None when one of them never gets a reply. */
  function Collected(reqs: seq<ChunkRequest>, ai: ChunkRequest -> seq<Option<string>>,
                     decode: string -> Option<Json>, show: Json -> string): Option<seq<Json>>
  {
    if reqs == [] then Some([])
    else AddChunk(Collected(reqs[..|reqs| - 1], ai, decode, show), ChunkRecords(reqs[|reqs| - 1], ai, decode, show))
  }

  /** `get_ai_chunks`: the records of all chunks. */
  function EnrichedRecords(chunks: seq<string>, dir: string, ai: ChunkRequest -> seq<Option<string>>,
                           decode: string -> Option<Json>, show: Json -> string): Option<seq<Json>>
  {
    Collected(Requests(chunks, dir), ai, decode, show)
  }

  /** An empty chunk list gives no records whatever the model would say: it is never asked. */
  lemma NoChunksNoCalls(dir: string, ai: ChunkRequest -> seq<Option<string>>, other: ChunkRequest -> seq<Option<string>>,
                        decode: string -> Option<Json>, show: Json -> string)
    ensures EnrichedRecords([], dir, ai, decode, show) == EnrichedRecords([], dir, other, decode, show) == Some([])
  {
    assert Requests([], dir) == [];
  }

  /** A longer prefix of requests is one more turn of the loop. */
  lemma CollectedSnoc(reqs: seq<ChunkRequest>, i: nat, ai: ChunkRequest -> seq<Option<string>>,
                      decode: string -> Option<Json>, show: Json -> string)
    requires i < |reqs|
    ensures Collected(reqs[..i + 1], ai, decode, show) == AddChunk(Collected(reqs[..i], ai, decode, show), ChunkRecords(reqs[i], ai, decode, show))
  {
    assert reqs[..i + 1][..i] == reqs[..i];
  }

  /** The records of a shorter prefix begin the records of a longer one. */
  lemma {:induction false} CollectedPrefix(reqs: seq<ChunkRequest>, m: nat, n: nat, ai: ChunkRequest -> seq<Option<string>>,
                                           decode: string -> Option<Json>, show: Json -> string)
    requires m <= n <= |reqs| && Collected(reqs[..n], ai, decode, show).Some?
    ensures Collected(reqs[..m], ai, decode, show).Some?
    ensures var short := Collected(reqs[..m], ai, decode, show).value;
      var long := Collected(reqs[..n], ai, decode, show).value;
      |short| <= |long| && long[..|short|] == short
    decreases n - m
  {
    var long := Collected(reqs[..n], ai, decode, show).value;
    if m < n {
      CollectedSnoc(reqs, n - 1, ai, decode, show);
      var parsed := ChunkRecords(reqs[n - 1], ai, decode, show);
      assert Collected(reqs[..n - 1], ai, decode, show).Some? && parsed.Some?;
      var mid := Collected(reqs[..n - 1], ai, decode, show).value;
      assert long == mid + parsed.value;
      CollectedPrefix(reqs, m, n - 1, ai, decode, show);
      PrefixOfPrefix(long, mid, Collected(reqs[..m], ai, decode, show).value);
    } else {
      assert long[..|long|] == long;
    }
  }

  /** A prefix of a prefix is a prefix. */
  lemma PrefixOfPrefix<T>(long: seq<T>, mid: seq<T>, short: seq<T>)
    requires |mid| <= |long| && long[..|mid|] == mid
    requires |short| <= |mid| && mid[..|short|] == short
    ensures |short| <= |long| && long[..|short|] == short
  {
    assert long[..|short|] == long[..|mid|][..|short|];
  }

  /** Once a request never gets a reply, neither does the pass. */
  lemma {:induction false} CollectedStuck(reqs: seq<ChunkRequest>, i: nat, ai: ChunkRequest -> seq<Option<string>>,
                                          decode: string -> Option<Json>, show: Json -> string)
    requires i <= |reqs| && Collected(reqs[..i], ai, decode, show).None?
    ensures Collected(reqs, ai, decode, show).None?
    decreases |reqs| - i
  {
    if i < |reqs| {
      CollectedSnoc(reqs, i, ai, decode, show);
      CollectedStuck(reqs, i + 1, ai, decode, show);
    } else {
      assert reqs[..i] == reqs;
    }
  }

  /**
   * The records are in chunk order: when the pass finishes, every chunk got
   * an accepted reply, and what `object_parser` read from it sits right after
   * the records of the chunks before it.
   */
  lemma ChunkRecordsInPlace(chunks: seq<string>, i: nat, dir: string, ai: ChunkRequest -> seq<Option<string>>,
                            decode: string -> Option<Json>, show: Json -> string)
    requires i < |chunks| && EnrichedRecords(chunks, dir, ai, decode, show).Some?
    ensures Accepted(ai(RequestFor(chunks, i, dir))).Some?
    ensures Collected(Requests(chunks, dir)[..i], ai, decode, show).Some?
    ensures var all := EnrichedRecords(chunks, dir, ai, decode, show).value;
      var before := Collected(Requests(chunks, dir)[..i], ai, decode, show).value;
      var parsed := ObjectParser(Accepted(ai(RequestFor(chunks, i, dir))).value, decode, show);
      SitsAt(all, |before|, parsed)
  {
    var reqs := Requests(chunks, dir);
    RequestAt(chunks, i, dir);
    assert EnrichedRecords(chunks, dir, ai, decode, show) == Collected(reqs, ai, decode, show);
    RequestRecordsInPlace(reqs, i, RequestFor(chunks, i, dir), ai, decode, show);
  }

  lemma RequestAt(chunks: seq<string>, i: nat, dir: string)
    requires i < |chunks|
    ensures i < |Requests(chunks, dir)| && Requests(chunks, dir)[i] == RequestFor(chunks, i, dir)
  {
  }

  /** The same, for any list of requests. */
  lemma RequestRecordsInPlace(reqs: seq<ChunkRequest>, i: nat, req: ChunkRequest, ai: ChunkRequest -> seq<Option<string>>,
                              decode: string -> Option<Json>, show: Json -> string)
    requires i < |reqs| && req == reqs[i] && Collected(reqs, ai, decode, show).Some?
    ensures Accepted(ai(req)).Some?
    ensures Collected(reqs[..i], ai, decode, show).Some?
    ensures var all := Collected(reqs, ai, decode, show).value;
      var before := Collected(reqs[..i], ai, decode, show).value;
      var parsed := ObjectParser(Accepted(ai(req)).value, decode, show);
      SitsAt(all, |before|, parsed)
  {
    assert reqs[..|reqs|] == reqs;
    CollectedPrefix(reqs, i + 1, |reqs|, ai, decode, show);
    CollectedSnoc(reqs, i, ai, decode, show);
    var all := Collected(reqs, ai, decode, show).value;
    var upto := Collected(reqs[..i + 1], ai, decode, show).value;
    var before := Collected(reqs[..i], ai, decode, show).value;
    var parsed := ChunkRecords(reqs[i], ai, decode, show).value;
    assert upto == before + parsed;
    MiddleOfPrefix(all, before, parsed);
  }

  /** `part` occurs in `all` starting at index `k`. */
  predicate SitsAt<T(==)>(all: seq<T>, k: nat, part: seq<T>) {
    k + |part| <= |all| && all[k..k + |part|] == part
  }

  lemma MiddleOfPrefix<T>(all: seq<T>, before: seq<T>, parsed: seq<T>)
    requires |before + parsed| <= |all| && all[..|before + parsed|] == before + parsed
    ensures SitsAt(all, |before|, parsed)
  {
    forall k | 0 <= k < |parsed| ensures all[|before|..|before| + |parsed|][k] == parsed[k] {
      assert all[..|before + parsed|][|before| + k] == (before + parsed)[|before| + k];
    }
  }

  /**
   * How the retry loop for one chunk ends. `time.sleep` refuses a negative
   * pause with a ValueError, which nothing in the loop catches.
   */
  datatype Attempt = Answered(reply: string) | CallsRanOut | SleepRaised

  /**
   * The retry loop's outcome on the replies `tries`, paused by `wait`
   * seconds: with a pause `time.sleep` accepts, the first non-empty reply;
   * with a negative one, the first call alone decides, since the pause after
   * an empty reply raises.
   */
  function Asked(tries: seq<Option<string>>, wait: int): Attempt {
    if wait >= 0 then
      (match Accepted(tries) case Some(reply) => Answered(reply) case None => CallsRanOut)
    else if tries == [] then CallsRanOut
    else if tries[0].Some? && tries[0].value != "" then Answered(tries[0].value)
    else SleepRaised
  }

  /**
   * The retry loop for one chunk: calls are made until one returns a
   * non-empty reply; a call that raised leaves the reply empty, and an empty
   * reply is followed by `time.sleep(wait)`. `CallsRanOut` is where the
   * calls run out first.
   */
  method AskUntilAnswered(tries: seq<Option<string>>, wait: int) returns (attempt: Attempt)
    ensures attempt == Asked(tries, wait)
    ensures wait >= 0 ==> (attempt.Answered? <==> Accepted(tries).Some?)
    ensures wait >= 0 && attempt.Answered? ==> attempt.reply == Accepted(tries).value
    ensures wait < 0 ==> attempt != CallsRanOut || tries == []
  {
    var reply := "";
    var k := 0;
    while reply == ""
      invariant k <= |tries|
      invariant reply == "" ==> Accepted(tries) == Accepted(tries[k..])
      invariant reply != "" ==> Accepted(tries) == Some(reply)
      invariant wait < 0 && reply == "" ==> k == 0
      invariant wait < 0 && reply != "" ==> k == 1 && tries[0] == Some(reply)
      decreases |tries| - k, if reply == "" then 1 else 0
    {
      if k == |tries| {
        return CallsRanOut;
      }
      assert tries[k..] == [tries[k]] + tries[k + 1..];
      if tries[k].Some? {
        reply := tries[k].value;
      }
      k := k + 1;
      if reply == "" && wait < 0 {
        // time.sleep(wait) after the empty reply (ai.py:56)
        return SleepRaised;
      }
    }
    attempt := Answered(reply);
  }

  /** How `get_ai_chunks` ends. */
  datatype Pass = Finished(records: seq<Json>) | StillRetrying | PauseRaised

  /**
   * `get_ai_chunks(chunks, wait, dir)`: with a pause `time.sleep` accepts,
   * the records `EnrichedRecords` collects, or `StillRetrying` where a
   * chunk's calls run out. With a negative pause and at least one chunk the
   * first chunk's first call decides: the sleep after it raises whether its
   * reply was empty (ai.py:56) or not (ai.py:62).
   */
  function PassOf(chunks: seq<string>, wait: int, dir: string, ai: ChunkRequest -> seq<Option<string>>,
                  decode: string -> Option<Json>, show: Json -> string): Pass
  {
    if wait >= 0 then
      (match EnrichedRecords(chunks, dir, ai, decode, show)
       case Some(records) => Finished(records)
       case None => StillRetrying)
    else if chunks == [] then Finished([])
    else if ai(Requests(chunks, dir)[0]) == [] then StillRetrying
    else PauseRaised
  }

  /**
   * `get_ai_chunks` as the source runs it, pausing `wait` seconds after an
   * empty reply and after each chunk. The length of a pause is not modelled,
   * only whether `time.sleep` accepts it.
   */
  method GetAiChunks(chunks: seq<string>, wait: int, dir: string, ai: ChunkRequest -> seq<Option<string>>,
                     decode: string -> Option<Json>, show: Json -> string)
    returns (pass: Pass)
    ensures pass == PassOf(chunks, wait, dir, ai, decode, show)
    ensures wait >= 0 ==> (pass.Finished? <==> EnrichedRecords(chunks, dir, ai, decode, show).Some?)
    ensures wait >= 0 && pass.Finished? ==> pass.records == EnrichedRecords(chunks, dir, ai, decode, show).value
    ensures wait < 0 && chunks != [] ==> !pass.Finished?
  {
    ghost var reqs := Requests(chunks, dir);
    var records := [];
    for i := 0 to |chunks|
      invariant Collected(reqs[..i], ai, decode, show) == Some(records)
      invariant wait < 0 ==> i == 0
    {
      var images := ImagePaths(chunks[i], dir);
      var previous := if i > 0 then chunks[i - 1] else NO_PREVIOUS;
      var next := if i < |chunks| - 1 then chunks[i + 1] else NO_NEXT;
      var request := ChunkRequest(chunks[i], previous, next, images);
      RequestAt(chunks, i, dir);
      var attempt := AskUntilAnswered(ai(request), wait);
      if attempt.CallsRanOut? {
        if wait >= 0 {
          StuckAt(reqs, i, ai, decode, show);
          CollectedStuck(reqs, i + 1, ai, decode, show);
        }
        return StillRetrying;
      }
      if attempt.SleepRaised? {
        return PauseRaised;
      }
      var parsed := ParseObjects(attempt.reply, decode, show);
      if wait < 0 {
        // time.sleep(wait) after the chunk (ai.py:62)
        return PauseRaised;
      }
      CollectedAnswered(reqs, i, ai, decode, show, records, attempt.reply);
      records := records + parsed;
    }
    CollectedAll(reqs, ai, decode, show);
    pass := Finished(records);
  }

  /** A chunk that gets a reply adds what `object_parser` reads from it. */
  lemma CollectedAnswered(reqs: seq<ChunkRequest>, i: nat, ai: ChunkRequest -> seq<Option<string>>,
                          decode: string -> Option<Json>, show: Json -> string, records: seq<Json>, reply: string)
    requires i < |reqs| && Collected(reqs[..i], ai, decode, show) == Some(records) && Accepted(ai(reqs[i])) == Some(reply)
    ensures Collected(reqs[..i + 1], ai, decode, show) == Some(records + ObjectParser(reply, decode, show))
  {
    CollectedSnoc(reqs, i, ai, decode, show);
  }

  /** A chunk that never gets a reply gives no records for the chunks up to it. */
  lemma StuckAt(reqs: seq<ChunkRequest>, i: nat, ai: ChunkRequest -> seq<Option<string>>,
                decode: string -> Option<Json>, show: Json -> string)
    requires i < |reqs| && Accepted(ai(reqs[i])).None?
    ensures Collected(reqs[..i + 1], ai, decode, show).None?
  {
    CollectedSnoc(reqs, i, ai, decode, show);
  }

  lemma CollectedAll(reqs: seq<ChunkRequest>, ai: ChunkRequest -> seq<Option<string>>,
                     decode: string -> Option<Json>, show: Json -> string)
    ensures Collected(reqs[..|reqs|], ai, decode, show) == Collected(reqs, ai, decode, show)
  {
    assert reqs[..|reqs|] == reqs;
  }
}
