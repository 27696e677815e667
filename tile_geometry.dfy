/**
 * Tile footprint geometry of `get_tile_vertices`: the per-zoom-level table of
 * tile edge lengths in Web-Mercator meters, and the four corners of the
 * square of that edge length centred on a projected point.
 *
 * The projections between spherical (longitude, latitude) and Web-Mercator
 * (y, x) coordinates are floating-point logarithms, tangents and
 * exponentials; they are parameters here, not definitions.
 */
module TileGeometry {
  /** A point in degrees: (longitude, latitude). */
  datatype SphericalPoint = SphericalPoint(lon: real, lat: real)

  /** A point on the Mercator map in meters: (y, x). */
  datatype MercatorPoint = MercatorPoint(y: real, x: real)

  /** The four corners of a tile, in the order the caller receives them. */
  datatype Corners<P> = Corners(topLeft: P, topRight: P, bottomLeft: P, bottomRight: P)

  /** Outcome of a lookup by zoom level: the value, or KeyError for a zoom level not in the table. */
  datatype Result<T> = Ok(value: T) | KeyError(zoom: int)

  /** Tile edge length in Mercator meters, keyed by zoom level. */
  const TileLengthTable: map<int, real> := map[
    1 := 20015089.262170314752,
    2 := 10007544.631085157376,
    3 := 5003772.315542578688,
    4 := 2501886.157771289344,
    5 := 1250943.078885644672,
    6 := 625471.539442822336,
    7 := 312735.769721411168,
    8 := 156367.884860705584,
    9 := 78183.942430352792,
    10 := 39091.971215176396,
    11 := 19545.985607588198,
    12 := 9772.992803794099,
    13 := 4886.4964018970495,
    14 := 2443.24820094852475,
    15 := 1221.624100474262375,
    16 := 610.8120502371311875
  ]

  /**
   * `tile_length[tile_size]`: defined exactly for the zoom levels 1..16;
   * any other key raises KeyError.
   */
  function TileLength(zoom: int): (r: Result<real>)
    ensures r.Ok? <==> 1 <= zoom <= 16
    ensures r.KeyError? ==> r.zoom == zoom
    ensures r.Ok? ==> r.value > 0.0
  {
    if zoom in TileLengthTable then Ok(TileLengthTable[zoom]) else KeyError(zoom)
  }

  /** Each zoom level halves the edge length of the one before, exactly. */
  lemma TileLengthHalves(zoom: int)
    requires 1 <= zoom <= 15
    ensures TileLength(zoom + 1).value == TileLength(zoom).value / 2.0
  {
  }

  /** `length` halved k times. */
  function Halved(length: real, k: nat): real
  {
    if k == 0 then length else Halved(length, k - 1) / 2.0
  }

  /**
   * Closed form of the table: the edge length at a zoom level is the
   * zoom-1 length halved once per further level.
   */
  lemma {:induction false} TileLengthClosedForm(zoom: int)
    requires 1 <= zoom <= 16
    ensures TileLength(zoom).value == Halved(TileLength(1).value, zoom - 1)
    decreases zoom
  {
    if zoom > 1 {
      TileLengthClosedForm(zoom - 1);
      TileLengthHalves(zoom - 1);
    }
  }

  /**
   * The corner points fed to the inverse projection: the centre offset by
   * half the edge length on each axis.  They form an axis-aligned square of
   * the given edge length: the top pair shares y + length/2 and the bottom
   * pair y - length/2, the left pair shares x - length/2 and the right pair
   * x + length/2, both sides measure `length`, and the centre of the four
   * points is the given centre.
   */
  function MercatorCorners(centre: MercatorPoint, length: real): (c: Corners<MercatorPoint>)
    ensures c.topLeft.y == c.topRight.y == centre.y + length / 2.0
    ensures c.bottomLeft.y == c.bottomRight.y == centre.y - length / 2.0
    ensures c.topLeft.x == c.bottomLeft.x == centre.x - length / 2.0
    ensures c.topRight.x == c.bottomRight.x == centre.x + length / 2.0
    ensures c.topRight.x - c.topLeft.x == length && c.topLeft.y - c.bottomLeft.y == length
    ensures (c.topLeft.y + c.topRight.y + c.bottomLeft.y + c.bottomRight.y) / 4.0 == centre.y
    ensures (c.topLeft.x + c.topRight.x + c.bottomLeft.x + c.bottomRight.x) / 4.0 == centre.x
  {
    var half := length / 2.0;
    Corners(
      MercatorPoint(centre.y + half, centre.x - half),
      MercatorPoint(centre.y + half, centre.x + half),
      MercatorPoint(centre.y - half, centre.x - half),
      MercatorPoint(centre.y - half, centre.x + half))
  }

  /** Applies a point conversion to each corner. */
  function MapCorners<P, Q>(f: P -> Q, c: Corners<P>): Corners<Q>
  {
    Corners(f(c.topLeft), f(c.topRight), f(c.bottomLeft), f(c.bottomRight))
  }

  /**
   * `get_tile_vertices`: look up the edge length for the zoom level,
   * project the centre, offset it to the four corners and convert each
   * corner back.  `toMercator` and `toSpherical` stand for
   * `spherical_to_mercator_coordinates` and
   * `mercator_to_spherical_coordinates`.
   */
  function TileVertices(lon: real, lat: real, zoom: int,
                        toMercator: SphericalPoint -> MercatorPoint,
                        toSpherical: MercatorPoint -> SphericalPoint): (r: Result<Corners<SphericalPoint>>)
    ensures r.Ok? <==> 1 <= zoom <= 16
    ensures r.KeyError? ==> r.zoom == zoom
    ensures r.Ok? ==> (r.value ==
      MapCorners(toSpherical, MercatorCorners(toMercator(SphericalPoint(lon, lat)), TileLength(zoom).value)))
  {
    match TileLength(zoom)
    case KeyError(z) => KeyError(z)
    case Ok(length) =>
      var centre := toMercator(SphericalPoint(lon, lat));
      Ok(MapCorners(toSpherical, MercatorCorners(centre, length)))
  }

  /**
   * Zoom levels 0 and 17 lie outside the table: the footprint is never
   * computed for them.
   */
  lemma OutsideZoomRangeFails(lon: real, lat: real,
                              toMercator: SphericalPoint -> MercatorPoint,
                              toSpherical: MercatorPoint -> SphericalPoint)
    ensures TileVertices(lon, lat, 0, toMercator, toSpherical) == KeyError(0)
    ensures TileVertices(lon, lat, 17, toMercator, toSpherical) == KeyError(17)
  {
  }

  /**
   * When projecting a converted-back point returns that point, the
   * projected vertices are exactly the Mercator square: their centre is the
   * projected input centre and both sides measure the zoom level's edge
   * length.
   */
  lemma VerticesCentredOnProjection(lon: real, lat: real, zoom: int,
                                    toMercator: SphericalPoint -> MercatorPoint,
                                    toSpherical: MercatorPoint -> SphericalPoint)
    requires 1 <= zoom <= 16
    requires forall p :: toMercator(toSpherical(p)) == p
    ensures var v := MapCorners(toMercator, TileVertices(lon, lat, zoom, toMercator, toSpherical).value);
      var centre := toMercator(SphericalPoint(lon, lat));
      && (v.topLeft.y + v.topRight.y + v.bottomLeft.y + v.bottomRight.y) / 4.0 == centre.y
      && (v.topLeft.x + v.topRight.x + v.bottomLeft.x + v.bottomRight.x) / 4.0 == centre.x
      && v.topRight.x - v.topLeft.x == TileLength(zoom).value
      && v.topLeft.y - v.bottomLeft.y == TileLength(zoom).value
  {
    var centre := toMercator(SphericalPoint(lon, lat));
    var m := MercatorCorners(centre, TileLength(zoom).value);
    assert MapCorners(toMercator, MapCorners(toSpherical, m)) == m;
  }
}
