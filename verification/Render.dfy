/**
 The page renderer: turns a search term and the records found for it into a
 flat markup string. Field text is inserted verbatim, without any escaping.
 */
module Render {
  import opened Text
  import opened Records

  /** The whole page when nothing was found for `term`. */
  function NotFoundPage(term: string): string
  {
    "<h2>The animal \"" + term + "\" doesn't exist.</h2>"
  }

  /** The top-level heading that opens a page with results. */
  function Header(term: string): string
  {
    "<h1>Animals related to " + term + "</h1>"
  }

  /** The subheading naming one record. */
  function Heading(a: Animal): string
  {
    "<h2>" + DisplayName(a) + "</h2>"
  }

  /** The paragraph listing one record's locations. */
  function LocationLine(a: Animal): string
  {
    "<p>Location(s): " + Join(LocationsOf(a), ", ") + "</p>"
  }

  /** The list item for one characteristic. */
  function Item(kv: (string, string)): string
  {
    "<li>" + kv.0 + ": " + kv.1 + "</li>"
  }

  /** One list item per characteristic, in the mapping's order. */
  function Items(cs: Characteristics): seq<string>
  {
    seq(|cs|, i requires 0 <= i < |cs| => Item(cs[i]))
  }

  /** The unordered list of one record's characteristics. */
  function CharacteristicList(a: Animal): string
  {
    "<ul>" + Concat(Items(CharacteristicsOf(a))) + "</ul>"
  }

  /** The fixed-shape block for one record: heading, locations paragraph, characteristics list. */
  function Block(a: Animal): string
  {
    Heading(a) + LocationLine(a) + CharacteristicList(a)
  }

  /** One block per record, in the records' order. */
  function Blocks(animals: seq<Animal>): seq<string>
  {
    seq(|animals|, i requires 0 <= i < |animals| => Block(animals[i]))
  }

  /** The header followed by the blocks of the records rendered so far. */
  function PartialPage(term: string, done: seq<Animal>): string
  {
    Header(term) + Concat(Blocks(done))
  }

  /** Rendering one more record appends exactly that record's block. */
  lemma PartialPageSnoc(term: string, done: seq<Animal>, a: Animal)
    ensures PartialPage(term, done + [a]) == PartialPage(term, done) + Block(a)
  {
    assert Blocks(done + [a]) == Blocks(done) + [Block(a)];
    ConcatSnoc(Blocks(done), Block(a));
  }

  /**
   The page for `term`: the not-found heading when there are no records,
   otherwise the header followed by one block per record. It is total: every
   term and every record sequence yields a page.
   */
  function GenerateHtml(term: string, animals: seq<Animal>): (r: string)
    ensures r == NotFoundPage(term) <==> |animals| == 0
    ensures |animals| > 0 ==> Header(term) <= r
  {
    if |animals| == 0 then
      NotFoundPage(term)
    else
      var page := PartialPage(term, animals);
      assert page[2] == '1';
      assert NotFoundPage(term)[2] == '2';
      page
  }

  /**
   The renderer as the imperative loop it is written as: start from the
   header, then for each record append its heading (the name, or `Unknown`
   only when absent), its locations paragraph and its characteristics list.
   */
  method BuildPage(term: string, animals: seq<Animal>) returns (html: string)
    ensures html == GenerateHtml(term, animals)
  {
    if |animals| == 0 {
      return NotFoundPage(term);
    }
    html := Header(term);
    var i := 0;
    assert html == PartialPage(term, []);
    while i < |animals|
      invariant 0 <= i <= |animals|
      invariant html == PartialPage(term, animals[..i])
    {
      var animal := animals[i];
      ghost var before := html;
      var heading := "<h2>" + animal.name.GetOr(UnknownName) + "</h2>";
      html := html + heading;
      var paragraph := "<p>Location(s): " + Join(animal.locations.GetOr([]), ", ") + "</p>";
      html := html + paragraph;
      var list := BuildList(animal.characteristics.GetOr([]));
      var unordered := "<ul>" + list + "</ul>";
      html := html + unordered;
      BlockPieces(before, animal, heading, paragraph, unordered);
      assert animals[..i + 1] == animals[..i] + [animal];
      PartialPageSnoc(term, animals[..i], animal);
      i := i + 1;
    }
    assert animals[..i] == animals;
  }

  /** Appending a record's three rendered pieces one after another appends its block. */
  lemma BlockPieces(before: string, a: Animal, heading: string, paragraph: string, unordered: string)
    requires heading == "<h2>" + a.name.GetOr(UnknownName) + "</h2>"
    requires paragraph == "<p>Location(s): " + Join(a.locations.GetOr([]), ", ") + "</p>"
    requires unordered == CharacteristicList(a)
    ensures before + heading + paragraph + unordered == before + Block(a)
  {
  }

  /** The characteristics list body as the generator the renderer joins: one item per pair, in order. */
  method BuildList(cs: Characteristics) returns (list: string)
    ensures list == Concat(Items(cs))
  {
    list := "";
    var j := 0;
    while j < |cs|
      invariant 0 <= j <= |cs|
      invariant list == Concat(Items(cs[..j]))
    {
      var (key, value) := cs[j];
      var item := "<li>" + key + ": " + value + "</li>";
      assert item == Item(cs[j]);
      assert Items(cs[..j + 1]) == Items(cs[..j]) + [item];
      ConcatSnoc(Items(cs[..j]), item);
      list := list + item;
      j := j + 1;
    }
    assert cs[..j] == cs;
  }

  /** Adding a record at the end of a non-empty result appends exactly its block. */
  lemma GenerateHtmlSnoc(term: string, animals: seq<Animal>, a: Animal)
    requires |animals| > 0
    ensures GenerateHtml(term, animals + [a]) == GenerateHtml(term, animals) + Block(a)
  {
    PartialPageSnoc(term, animals, a);
  }

  /** A non-empty result followed by more records renders as its page followed by their blocks. */
  lemma GenerateHtmlAppend(term: string, animals: seq<Animal>, more: seq<Animal>)
    requires |animals| > 0
    ensures GenerateHtml(term, animals + more) == GenerateHtml(term, animals) + Concat(Blocks(more))
  {
    assert Blocks(animals + more) == Blocks(animals) + Blocks(more);
    ConcatAppend(Blocks(animals), Blocks(more));
  }

  /**
   Record `i`'s block appears in the page exactly where the header plus the
   blocks of the records before it end: blocks come in input order, one each.
   */
  lemma BlockAt(term: string, animals: seq<Animal>, i: nat)
    requires i < |animals|
    ensures var start := |PartialPage(term, animals[..i])|;
      var page := GenerateHtml(term, animals);
      var block := Block(animals[i]);
      start + |block| <= |page| && page[start..start + |block|] == block
  {
    PageIsHeaderThenBlocks(term, animals);
    BlocksPrefix(animals, i);
    PieceAtAfter(Header(term), Blocks(animals), i);
  }

  /** A page with results is the header followed by the blocks. */
  lemma PageIsHeaderThenBlocks(term: string, animals: seq<Animal>)
    requires |animals| > 0
    ensures GenerateHtml(term, animals) == Header(term) + Concat(Blocks(animals))
  {
  }

  /**
   A page with results is exactly as long as the header plus all blocks, so
   the blocks placed by `BlockAt` fill the rest of the page with nothing else.
   */
  lemma PageLength(term: string, animals: seq<Animal>)
    requires |animals| > 0
    ensures |GenerateHtml(term, animals)| == |Header(term)| + TotalLength(Blocks(animals))
  {
    PageIsHeaderThenBlocks(term, animals);
    ConcatLength(Blocks(animals));
  }

  /**
   The locations paragraph holds the locations and exactly one `, ` between
   each neighbouring pair, between the fixed opening and closing text.
   */
  lemma LocationLineLength(a: Animal)
    ensures var locs := LocationsOf(a);
      |LocationLine(a)|
      == |"<p>Location(s): "| + TotalLength(locs) + (if |locs| == 0 then 0 else (|locs| - 1) * |", "|) + |"</p>"|
  {
    var locs := LocationsOf(a);
    if |locs| > 0 {
      JoinLength(locs, ", ");
    }
  }

  /** The blocks of a prefix of the records are the matching prefix of the blocks. */
  lemma BlocksPrefix(animals: seq<Animal>, i: nat)
    requires i <= |animals|
    ensures Blocks(animals)[..i] == Blocks(animals[..i])
  {
  }

  /**
   Characteristic `j` of a record yields its list item right after the items
   before it: one item per pair, in the mapping's order.
   */
  lemma ItemAt(cs: Characteristics, j: nat)
    requires j < |cs|
    ensures var start := |Concat(Items(cs[..j]))|;
      var list := Concat(Items(cs));
      start + |Item(cs[j])| <= |list| && list[start..start + |Item(cs[j])|] == "<li>" + cs[j].0 + ": " + cs[j].1 + "</li>"
  {
    var parts := Items(cs);
    assert parts[..j] == Items(cs[..j]);
    PieceAt(parts, j);
  }

  /** A record's block opens with its heading: the name verbatim, or `Unknown` when the name is absent. */
  lemma BlockStartsWithName(a: Animal)
    ensures a.name.Some? ==> "<h2>" + a.name.value + "</h2>" <= Block(a)
    ensures a.name.None? ==> "<h2>Unknown</h2>" <= Block(a)
  {
  }

  /** A present but empty name is not replaced by the default: it renders differently from an absent one. */
  lemma EmptyNameIsNotDefaulted(a: Animal)
    ensures Block(a.(name := Some(""))) != Block(a.(name := None))
  {
    var withEmpty := Block(a.(name := Some("")));
    var withAbsent := Block(a.(name := None));
    assert withEmpty[4] == '<';
    assert withAbsent[4] == 'U';
  }

  /** Absent locations render like an empty list: a paragraph with no location text and no separator. */
  lemma AbsentLocationsRenderEmpty(a: Animal)
    ensures Block(a.(locations := None)) == Block(a.(locations := Some([])))
    ensures a.locations.None? ==> Block(a) == Heading(a) + "<p>Location(s): </p>" + CharacteristicList(a)
  {
  }

  /** Absent characteristics render like an empty mapping: the block closes with an empty list. */
  lemma AbsentCharacteristicsRenderEmpty(a: Animal)
    ensures Block(a.(characteristics := None)) == Block(a.(characteristics := Some([])))
    ensures a.characteristics.None? ==> Block(a) == Heading(a) + LocationLine(a) + "<ul></ul>"
  {
  }
}
