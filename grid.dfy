/**
 * The 3x3 lattice of sample points of `calculate_grid_points`
 * (maps_debug_display_pins.py). The latitude and longitude offsets are
 * parameters: the source derives them from the radius with floating-point
 * trigonometry, which this model does not follow.
 */
module Grid {
  import opened Places

  /** The point `i` latitude steps and `j` longitude steps from the centre. */
  function GridPoint(center: Coord, latOffset: real, lngOffset: real, i: int, j: int): Coord {
    Coord(center.lat + i as real * latOffset, center.lng + j as real * lngOffset)
  }

  /**
   * The nine points in row-major order: the outer multiplier `i` walks the
   * latitude over -1, 0, 1, the inner multiplier `j` the longitude.
   */
  function GridPoints(center: Coord, latOffset: real, lngOffset: real): (r: seq<Coord>)
    ensures |r| == 9
    ensures forall i, j :: -1 <= i <= 1 && -1 <= j <= 1 ==>
      r[3 * (i + 1) + (j + 1)] == GridPoint(center, latOffset, lngOffset, i, j)
  {
    var p := (i, j) => GridPoint(center, latOffset, lngOffset, i, j);
    [p(-1, -1), p(-1, 0), p(-1, 1),
     p(0, -1),  p(0, 0),  p(0, 1),
     p(1, -1),  p(1, 0),  p(1, 1)]
  }

  /** Index 4 is the centre itself: the offsets are multiplied by zero. */
  lemma GridCentre(center: Coord, latOffset: real, lngOffset: real)
    ensures GridPoints(center, latOffset, lngOffset)[4] == center
  {
  }

  /** Points `k` and `8 - k` lie symmetrically about the centre. */
  lemma GridMirror(center: Coord, latOffset: real, lngOffset: real, k: int)
    requires 0 <= k < 9
    ensures var r := GridPoints(center, latOffset, lngOffset);
      r[k].lat + r[8 - k].lat == 2.0 * center.lat && r[k].lng + r[8 - k].lng == 2.0 * center.lng
  {
  }

  /** The points of one row share a latitude, those of one column a longitude. */
  lemma GridRowsAndColumns(center: Coord, latOffset: real, lngOffset: real, i: int, j: int, i': int, j': int)
    requires -1 <= i <= 1 && -1 <= j <= 1 && -1 <= i' <= 1 && -1 <= j' <= 1
    ensures var r := GridPoints(center, latOffset, lngOffset);
      r[3 * (i + 1) + (j + 1)].lat == r[3 * (i + 1) + (j' + 1)].lat &&
      r[3 * (i + 1) + (j + 1)].lng == r[3 * (i' + 1) + (j + 1)].lng
  {
  }

  /** The nested loops of `calculate_grid_points`, appending one point per step. */
  method CalculateGridPoints(center: Coord, latOffset: real, lngOffset: real)
    returns (gridPoints: seq<Coord>)
    ensures gridPoints == GridPoints(center, latOffset, lngOffset)
  {
    gridPoints := [];
    ghost var spec := GridPoints(center, latOffset, lngOffset);
    var i := -1;
    while i < 2
      invariant -1 <= i <= 2
      invariant |gridPoints| == 3 * (i + 1)
      invariant gridPoints == spec[..|gridPoints|]
    {
      var j := -1;
      while j < 2
        invariant -1 <= j <= 2
        invariant |gridPoints| == 3 * (i + 1) + (j + 1)
        invariant gridPoints == spec[..|gridPoints|]
      {
        assert spec[..|gridPoints| + 1] == spec[..|gridPoints|] + [spec[|gridPoints|]];
        gridPoints := gridPoints + [GridPoint(center, latOffset, lngOffset, i, j)];
        j := j + 1;
      }
      i := i + 1;
    }
  }
}
