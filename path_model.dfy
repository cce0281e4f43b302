/**
 * The path data exchanged between the font manager, the SVG processor and the model generator:
 * a list of path records and an optional bounding box.
 */
module PathModel {
  import opened Wrappers

  /** An axis-aligned box from (x1, y1) to (x2, y2). */
  datatype Bounds = Bounds(x1: real, y1: real, x2: real, y2: real)

  /**
   * One path: its `d` text and fill colour, and the optional stroke colour and stroke width
   * (absent properties are `None`).
   */
  datatype PathRecord = PathRecord(path: string, fill: string, stroke: Option<string>, strokeWidth: Option<real>)

  /** `{ paths, bounds }`; `bounds` is `None` where the source has `null`. */
  datatype PathData = PathData(paths: seq<PathRecord>, bounds: Option<Bounds>)

  function Width(b: Bounds): real { b.x2 - b.x1 }

  function Height(b: Bounds): real { b.y2 - b.y1 }

  /** The path data `{paths: [], bounds: null}`. */
  const NoPaths := PathData([], None)
}
