/**
 * Which program produced a PDF. `proveri_poreklo_pdf` looks for marker words
 * in the lowercased creator, producer and title metadata, in priority order;
 * the structural check looks at the page sizes; `main_chack_pdf` combines
 * the two into PowerPoint, Word or Unknown. Opening the file is left to the
 * caller: the metadata and the page sizes arrive as values, and None stands
 * for the exception that reading them raised.
 */
module PdfOrigin {
  import opened Wrappers
  import opened PyStrings

  datatype Origin = PowerPoint | Word | MicrosoftOffice | Unknown | Error {
    /** The string the source returns. */
    function Name(): string {
      match this
      case PowerPoint => "PowerPoint"
      case Word => "Word"
      case MicrosoftOffice => "Microsoft Office Document"
      case Unknown => "Unknown"
      case Error => "Error"
    }
  }

  const CREATOR := "creator"
  const PRODUCER := "producer"
  const TITLE := "title"

  /** `metadata.get(key, '').lower()` */
  function Field(metadata: map<string, string>, key: string): string {
    Lower(if key in metadata then metadata[key] else "")
  }

  /** A PowerPoint marker in any of the lowercased fields, or a `.ppt` title. */
  predicate PowerPointMarked(creator: string, producer: string, title: string) {
    Contains(creator, "powerpoint") || Contains(producer, "powerpoint") || Contains(title, "powerpoint")
    || Contains(title, ".ppt")
  }

  predicate WordMarked(creator: string, title: string) {
    Contains(creator, "word") || Contains(creator, "msword") || Contains(title, "word")
  }

  predicate MicrosoftMarked(creator: string, producer: string) {
    Contains(creator, "microsoft") || Contains(producer, "microsoft")
  }

  /** The priority-ordered checks on already lowercased fields. */
  function Classify(creator: string, producer: string, title: string): Origin {
    if PowerPointMarked(creator, producer, title) then PowerPoint
    else if WordMarked(creator, title) then Word
    else if MicrosoftMarked(creator, producer) then MicrosoftOffice
    else Unknown
  }

  /** `proveri_poreklo_pdf` on the metadata read from the file. */
  function OriginOf(metadata: Option<map<string, string>>): Origin {
    match metadata
    case None => Error
    case Some(m) => Classify(Field(m, CREATOR), Field(m, PRODUCER), Field(m, TITLE))
  }

  /** `"msword" in c` adds nothing to `"word" in c`. */
  lemma MsWordSubsumed(c: string)
    ensures Contains(c, "msword") ==> Contains(c, "word")
  {
    if Contains(c, "msword") {
      assert OccursAt("msword", "word", 2);
      ContainsTrans(c, "msword", "word");
    }
  }

  /**
   * The verdict, read off the markers: PowerPoint wins over everything,
   * Word needs "word" in the creator or the title (never the producer),
   * Microsoft needs "microsoft" in the creator or the producer, and a file
   * whose metadata cannot be read is an Error.
   */
  lemma ClassifyCases(creator: string, producer: string, title: string)
    ensures var o := Classify(creator, producer, title);
            && (o == PowerPoint <==> PowerPointMarked(creator, producer, title))
            && (o == Word <==> !PowerPointMarked(creator, producer, title)
                               && (Contains(creator, "word") || Contains(title, "word")))
            && (o == MicrosoftOffice <==> !PowerPointMarked(creator, producer, title)
                                          && !Contains(creator, "word") && !Contains(title, "word")
                                          && MicrosoftMarked(creator, producer))
            && o != Error
  {
    MsWordSubsumed(creator);
  }

  /** The verdict never depends on ASCII letter case: upper-casing any field changes nothing. */
  lemma OriginIgnoresCase(m: map<string, string>, u: map<string, string>)
    requires forall k :: k in [CREATOR, PRODUCER, TITLE] ==> (k in m <==> k in u)
    requires forall k :: k in [CREATOR, PRODUCER, TITLE] && k in m ==> u[k] == Upper(m[k])
    ensures OriginOf(Some(u)) == OriginOf(Some(m))
  {
    forall k | k in [CREATOR, PRODUCER, TITLE] ensures Field(u, k) == Field(m, k) {
      if k in m {
        LowerUpper(m[k]);
      }
    }
  }

  /** Only a read failure gives Error. */
  lemma ErrorOnlyOnFailure(metadata: Option<map<string, string>>)
    ensures OriginOf(metadata) == Error <==> metadata.None?
  {
    if metadata.Some? {
      var m := metadata.value;
      ClassifyCases(Field(m, CREATOR), Field(m, PRODUCER), Field(m, TITLE));
    }
  }

  // ---------------------------------------------------------------
  // Structure
  // ---------------------------------------------------------------

  datatype Structure = Presentation | Portrait | Undetermined {
    function Name(): string {
      match this
      case Presentation => "Verovatno prezentacija"
      case Portrait => "Verovatno tekstualni dokument (portrait)"
      case Undetermined => "Neodre\U{0111}eno"
    }
  }

  /** A page's width and height; the ratio below is taken exactly, not as a binary float. */
  datatype Page = Page(width: real, height: real)

  predicate PresentationRatio(ratio: real) {
    (1.25 < ratio < 1.45) || (1.65 < ratio < 1.85)
  }

  predicate ConsistentSizes(pages: seq<Page>)
    requires pages != []
  {
    forall i :: 0 <= i < |pages| ==> pages[i] == pages[0]
  }

  /**
   * The decision of `debug_analiziraj_strukturu`: None for an empty
   * document, a first page of height zero or a failure to read the pages.
   */
  function StructureOf(pages: Option<seq<Page>>): Option<Structure> {
    match pages
    case None => None
    case Some(ps) =>
      if ps == [] || ps[0].height == 0.0 then None
      else
        var first := ps[0];
        var landscape := first.width > first.height;
        if landscape && PresentationRatio(first.width / first.height) && ConsistentSizes(ps) then Some(Presentation)
        else if !landscape then Some(Portrait)
        else Some(Undetermined)
  }

  /** The structural verdict in terms of the first page and the page list. */
  lemma StructureCases(pages: Option<seq<Page>>)
    ensures StructureOf(pages).None? <==> pages.None? || pages.value == [] || pages.value[0].height == 0.0
    ensures StructureOf(pages) == Some(Presentation) <==>
      && pages.Some? && pages.value != [] && pages.value[0].height != 0.0
      && pages.value[0].width > pages.value[0].height
      && PresentationRatio(pages.value[0].width / pages.value[0].height)
      && ConsistentSizes(pages.value)
    ensures StructureOf(pages) == Some(Portrait) <==>
      pages.Some? && pages.value != [] && pages.value[0].height != 0.0 && pages.value[0].width <= pages.value[0].height
  {
  }

  /** `main_chack_pdf`: the origin first, the structure only when the origin is not PowerPoint. */
  function CheckPdf(metadata: Option<map<string, string>>, pages: Option<seq<Page>>): Origin {
    var origin := OriginOf(metadata);
    if origin == PowerPoint then PowerPoint
    else if StructureOf(pages) == Some(Presentation) then PowerPoint
    else if origin == Word then Word
    else Unknown
  }

  /**
   * The combined verdict is PowerPoint, Word or Unknown. A PowerPoint origin
   * decides before the pages matter; otherwise a presentation layout gives
   * PowerPoint, and else the verdict is Word exactly for a Word origin.
   */
  lemma CheckPdfCases(metadata: Option<map<string, string>>, pages: Option<seq<Page>>, other: Option<seq<Page>>)
    ensures CheckPdf(metadata, pages) in {PowerPoint, Word, Unknown}
    ensures OriginOf(metadata) == PowerPoint ==> CheckPdf(metadata, pages) == CheckPdf(metadata, other) == PowerPoint
    ensures OriginOf(metadata) != PowerPoint && StructureOf(pages) == Some(Presentation) ==> CheckPdf(metadata, pages) == PowerPoint
    ensures StructureOf(pages) != Some(Presentation) ==>
      (CheckPdf(metadata, pages) == Word <==> OriginOf(metadata) == Word)
      && (OriginOf(metadata) in {MicrosoftOffice, Error, Unknown} ==> CheckPdf(metadata, pages) == Unknown)
  {
  }
}
