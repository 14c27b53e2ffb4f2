/**
 * The parsed page as the scraper sees it, with the HTML library abstracted away,
 * together with the pieces of Python semantics the scraper relies on: the kinds
 * of exception it may raise and the way `s[start:stop]` slices a string.
 */
module Markup {
  import opened Wrappers

  /** An `<img>` element: its `src` attribute, which `get("src")` returns as `None` when absent. */
  datatype Img = Img(src: Option<string>)

  /** A `<p>` element: its `text`, which is `None` when the element has no text. */
  datatype Para = Para(text: Option<string>)

  /** A `<td>` cell: the `<img>` and `<p>` elements found under it, in document order. */
  datatype Cell = Cell(imgs: seq<Img>, ps: seq<Para>)

  /** A table row, split into its `<td>` cells. */
  type Row = seq<Cell>

  /** The Python exceptions that the scraping loop catches. */
  datatype PyError = IndexError | ValueError | TypeError | AttributeError

  /** Python's `float(s)` on a string: `None` stands for the `ValueError` it raises. */
  type FloatParser = string -> Option<real>

  /**
   * How Python normalises one bound of a slice over a sequence of length `n`:
   * a negative bound counts from the end, and the result is clamped to `0..n`.
   */
  function SliceBound(i: int, n: nat): (b: nat)
    ensures b <= n
  {
    if i < 0 then (if n + i < 0 then 0 else n + i)
    else if i > n then n
    else i
  }

  /**
   * Python's `s[start:stop]`: never an error; the elements from the normalised
   * start up to the normalised stop, or nothing when the two cross.
   */
  function Slice<T>(s: seq<T>, start: int, stop: int): (r: seq<T>)
    ensures |r| <= |s|
  {
    var a, b := SliceBound(start, |s|), SliceBound(stop, |s|);
    if a < b then s[a..b] else []
  }
}
