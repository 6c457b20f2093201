/** The colour classification of svg_parser.py: a path's stroke colour
    decides whether it is cut (black) or scored (red), or ignored. The
    parsing of a colour string into red, green and blue components is done
    by the SVG library and is not part of this model; a declared stroke
    carries its text and the components the library reads from it. */
module Roles {
  import opened Wrappers

  /** Colour components, 0 to 255. */
  datatype Rgb = Rgb(r: int, g: int, b: int)

  /** The `stroke` entry of an element's style. */
  datatype Stroke =
    | Unset
    | Declared(text: string, rgb: Rgb)

  /** What a path is drawn for: black paths are cut, red paths scored. */
  datatype Role = Cut | Score | Ignored

  /** The stroke colour, or None when the path has no stroke (an empty
      entry or `none`). An absent entry reads as `#000000`. */
  function StrokeColor(stroke: Stroke): (c: Option<Rgb>)
    ensures stroke.Unset? ==> c == Some(Rgb(0, 0, 0))
    ensures stroke.Declared? ==> (c.None? <==> stroke.text == "" || stroke.text == "none")
    ensures c.Some? && stroke.Declared? ==> c.value == stroke.rgb
  {
    match stroke
    case Unset => Some(Rgb(0, 0, 0))
    case Declared(text, rgb) => if text == "" || text == "none" then None else Some(rgb)
  }

  /** Near-black is cut; strong red with little green and blue is scored;
      black is checked first. */
  function Classify(c: Rgb): (role: Role)
    ensures role == Cut <==> c.r < 20 && c.g < 20 && c.b < 20
    ensures role == Score <==> c.r > 200 && c.g < 50 && c.b < 50
  {
    if c.r < 20 && c.g < 20 && c.b < 20 then Cut
    else if c.r > 200 && c.g < 50 && c.b < 50 then Score
    else Ignored
  }

  /** The role of a path with the given stroke: None when it has no stroke. */
  function RoleOf(stroke: Stroke): Option<Role>
  {
    match StrokeColor(stroke)
    case None => None
    case Some(c) => Some(Classify(c))
  }

  /** A path with no stroke entry is cut; one whose stroke is `none` or empty
      is skipped; pure red is scored and pure blue ignored. */
  lemma RoleExamples()
    ensures RoleOf(Unset) == Some(Cut)
    ensures RoleOf(Declared("none", Rgb(0, 0, 0))) == None
    ensures RoleOf(Declared("", Rgb(0, 0, 0))) == None
    ensures RoleOf(Declared("#ff0000", Rgb(255, 0, 0))) == Some(Score)
    ensures RoleOf(Declared("#0000ff", Rgb(0, 0, 255))) == Some(Ignored)
  {
  }
}
