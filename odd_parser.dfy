/**
 * `_parse_odd`: one cell pair of the odds table, an image cell holding the
 * candidate's picture and a percentage cell holding the odds, read into an
 * optional candidate name and optional odds.
 */
module OddParser {
  import opened Wrappers
  import opened Markup

  /** What one cell pair yields: the candidate name and the odds, each possibly `None`. */
  datatype Entry = Entry(name: Option<string>, odds: Option<real>)

  /**
   * `src[1:-4]`: the image path with its leading `/` and its four-character
   * extension `.png` cut off. Paths too short for both cuts give the empty name.
   */
  function StripName(src: string): (name: string)
    ensures |src| >= 5 ==> name == src[1..|src| - 4]
    ensures |src| <= 5 ==> name == []
  {
    Slice(src, 1, -4)
  }

  /** `text[:-1]`: the percentage label without its trailing `%`; the empty label stays empty. */
  function StripPercent(text: string): (number: string)
    ensures text != [] ==> text == number + [text[|text| - 1]]
    ensures text == [] ==> number == []
  {
    Slice(text, 0, -1)
  }

  /** The image path a name is cut from, for the page's naming convention, and the inverse of StripName. */
  lemma NameRoundTrip(lead: char, name: string, extension: string)
    requires |extension| == 4
    ensures StripName([lead] + name + extension) == name
  {
  }

  /** A label is the number followed by one character, and StripPercent gives the number back. */
  lemma PercentRoundTrip(number: string, suffix: char)
    ensures StripPercent(number + [suffix]) == number
  {
  }

  /** The image cell's first `<img>` exists and has no `src`, so slicing `None` raises `TypeError`. */
  predicate SrcMissing(imageCell: Cell) {
    imageCell.imgs != [] && imageCell.imgs[0].src.None?
  }

  /** The percentage cell's first `<p>` exists and has text. */
  predicate HasLabel(percentCell: Cell) {
    percentCell.ps != [] && percentCell.ps[0].text.Some?
  }

  /** The odds the first label of a percentage cell carries, when `float` accepts it. */
  function LabelOdds(percentCell: Cell, float: FloatParser): Option<real>
    requires HasLabel(percentCell)
  {
    float(StripPercent(percentCell.ps[0].text.value))
  }

  /**
   * The cell-pair parser. The name is read first: none without an `<img>`,
   * `TypeError` for an `<img>` without `src`, the stripped `src` of the first
   * `<img>` otherwise. Then the odds: none without a `<p>` or when the first
   * `<p>` has no text, `ValueError` when the text without its last character
   * is not a number, the number otherwise.
   */
  function ParseOdd(imageCell: Cell, percentCell: Cell, float: FloatParser): (r: Result<Entry, PyError>)
    ensures r.Failure? <==> SrcMissing(imageCell) || (HasLabel(percentCell) && LabelOdds(percentCell, float).None?)
    ensures SrcMissing(imageCell) ==> r == Failure(TypeError)
    ensures r.Failure? && !SrcMissing(imageCell) ==> r.error == ValueError
    ensures r.Success? ==> (r.value.name.Some? <==> imageCell.imgs != [])
    ensures r.Success? && imageCell.imgs != [] ==> r.value.name == Some(StripName(imageCell.imgs[0].src.value))
    ensures r.Success? ==> (r.value.odds.Some? <==> HasLabel(percentCell))
    ensures r.Success? && HasLabel(percentCell) ==> r.value.odds == LabelOdds(percentCell, float)
  {
    var name :-
      if imageCell.imgs == [] then Success(None)
      else match imageCell.imgs[0].src
        case None => Failure(TypeError)
        case Some(src) => Success(Some(StripName(src)));
    var odds :-
      if HasLabel(percentCell) then
        match LabelOdds(percentCell, float)
        case None => Failure(ValueError)
        case Some(v) => Success(Some(v))
      else Success(None);
    Success(Entry(name, odds))
  }

  /**
   * A label that is only the `%`, or only one character, leaves the empty string
   * for `float`, which rejects it: the pair fails with `ValueError`.
   */
  lemma EmptyRemainderFails(imageCell: Cell, float: FloatParser)
    requires float("") == None
    requires !SrcMissing(imageCell)
    ensures ParseOdd(imageCell, Cell([], [Para(Some("%"))]), float) == Failure(ValueError)
  {
  }

  /** A pair without a name still fails when its label is not a number: the odds are read whatever the name is. */
  lemma NamelessPairStillReadsOdds(text: string, float: FloatParser)
    requires float(StripPercent(text)) == None
    ensures ParseOdd(Cell([], []), Cell([], [Para(Some(text))]), float) == Failure(ValueError)
  {
  }

  /** Only the first `<img>` of the image cell and the first `<p>` of the percentage cell are looked at. */
  lemma OnlyFirstElementsRead(imageCell: Cell, percentCell: Cell, float: FloatParser)
    ensures ParseOdd(imageCell, percentCell, float)
         == ParseOdd(Cell(imageCell.imgs[..if imageCell.imgs == [] then 0 else 1], []),
                     Cell([], percentCell.ps[..if percentCell.ps == [] then 0 else 1]), float)
  {
  }

  /** `/foo.png` names the candidate `foo`, and `37.5%` hands `37.5` to `float`. */
  lemma ExamplePair(float: FloatParser)
    requires float("37.5") == Some(37.5)
    ensures ParseOdd(Cell([Img(Some("/foo.png"))], []), Cell([], [Para(Some("37.5%"))]), float)
         == Success(Entry(Some("foo"), Some(37.5)))
  {
    NameRoundTrip('/', "foo", ".png");
    assert "/foo.png" == ['/'] + "foo" + ".png";
    PercentRoundTrip("37.5", '%');
    assert "37.5%" == "37.5" + ['%'];
  }
}
