# Tile coordinates, tile footprints and attribute search

A Dafny model of the computational core of `analytics.py` from the
Facebook movement-map analysis: the quadkey decoder of the Bing Maps Tile
System, the tile edge-length table with the Mercator-space corner offsets of
`get_tile_vertices`, and the three attribute searches over graphs.

- `quadkey.dfy`, module `Quadkey`: `quadkey_to_tile_coordinates` as a method
  whose `while` loop runs i from n down to 1, takes the character at index
  n-i and ORs the mask `1 << (i-1)` into x, y or both. `|` is modelled by
  `BitOr`, a bitwise OR on non-negative integers, and `1 << k` by `Pow2`. The
  loop is proved equal to `Decode`, a reference definition that reads the
  quadkey as two binary numbers, most significant character first. The
  lemmas about `Decode` cover the bounds, the bit at each position, appending
  a digit, validity, invalid characters and the worked examples.
- `search.dfy`, module `AttributeSearch`: `search_edges`, `search_nodes` and
  `search_graphs`. A graph is its node records, its edge records (each in the
  graph library's iteration order) and its graph-level attribute map. A query
  is a sequence of key/value pairs in keyword order. `AllMatch` is the
  short-circuiting `all(data[key] == value ...)`, with KeyError as an outcome.
  `Search` is the loop the three functions share, proved equal to the
  reference `Filter`.
- `tile_geometry.dfy`, module `TileGeometry`: the `tile_length` dictionary as
  a constant map from zoom level to exact real length, the lookup with its
  KeyError, the four offset corner points, and `get_tile_vertices` with the
  two projections passed in as functions.

Three behaviours of the code that a reader might not expect:

- An invalid quadkey character is not a hard failure. The code prints a
  fixed message and goes on decoding, so the model returns the coordinates
  with `valid` false.
- A missing attribute is not a non-match. The code indexes `data[key]` and
  raises KeyError for the first criterion, in keyword order, whose key is
  missing, unless an earlier criterion has already failed. The model returns
  that KeyError.
- Latitudes at or beyond the poles are not rejected. The code does no such
  check, and the projections are not modelled.

## Model

| member | source | states |
|---|---|---|
| `Quadkey.QuadkeyToTileCoordinates` | analytics.py:67-96 | the decoding loop (masks `1 << (i-1)` OR-ed in from the most significant position down, invalid characters only clear the flag) returns exactly `Decode(quadkey)` |
| `Quadkey.DecoderStep` | analytics.py:80-94 | one loop iteration turns the decoding of the first n-i characters, shifted left by i, into that of the first n-i+1 characters, shifted left by i-1 |
| `Quadkey.Pow2` | analytics.py:81 | the mask `1 << k` is at least 1; that it has exactly bit k set is proved in `Pow2IsSingleBit` |
| `Quadkey.Pow2IsSingleBit` | analytics.py:81 | bit j of 2^k is 1 exactly when j == k |
| `Quadkey.BitOr` | analytics.py:86-93 | bitwise OR, as in the OR-assignments of the mask into x and y: the result is at most a + b, and OR with 0 leaves the other operand; its bitwise meaning is proved in `BitOrBits` |
| `Quadkey.OrIntoClearBit` | analytics.py:86 | OR-ing the mask 2^k into a multiple of 2^(k+1) adds it: the bits of different positions are disjoint |
| `Quadkey.ShiftStep` | analytics.py:81-93 | OR-ing the mask in when the digit's bit is set, or leaving the value alone when it is not, gives (2p + bit) << (i-1) |
| `Quadkey.BitOrBits` | analytics.py:86 | bit k of the bitwise OR of a and b is set exactly when bit k of a or of b is set |
| `Quadkey.Decode` | analytics.py:78-96 | both decoded coordinates of a quadkey of length n lie in [0, 2^n), whatever its characters |
| `Quadkey.DecodeAppend` | analytics.py:80-94 | appending character d maps (x, y) to (2x + d%2, 2y + d/2) for a digit, sets no bit for any other character, and the flag stays true only for a digit |
| `Quadkey.DecodeBit` | analytics.py:80-94 | the character at index j alone decides bit n-1-j: of x by '1'/'3', of y by '2'/'3' |
| `Quadkey.BitsDetermine` | analytics.py:80-96 | two numbers below 2^n with the same n low bits are equal, so together with `DecodeBit` the bits determine x and y |
| `Quadkey.DecodeValid` | analytics.py:83-95 | the flag is true exactly when every character is one of '0', '1', '2', '3' |
| `Quadkey.InvalidDigitSetsNoBit` | analytics.py:95 | a character outside '0'..'3' decodes like '0' at its position, so every other position decodes as it otherwise would, and the result is flagged invalid |
| `Quadkey.DecodeSingleDigits` | analytics.py:78-81 | the empty quadkey decodes to (0, 0); "0" to (0, 0); "3" to (1, 1) |
| `Quadkey.DecodeExamples` | analytics.py:80-94 | "13" decodes to (3, 1) and "123" to (5, 3) |
| `Quadkey.DecodeInvalidExample` | analytics.py:80-95 | "15" decodes to (2, 0), flagged invalid |
| `AttributeSearch.AllMatch` | analytics.py:29 | the `all(data[key] == value ...)` test: an empty query passes and a KeyError names a key the data lacks; its full meaning is proved in `AllMatchMeaning` |
| `AttributeSearch.AllMatchMeaning` | analytics.py:29 | the test is true exactly when every criterion holds; false exactly when a criterion finds another value after all earlier ones held; KeyError exactly when a criterion's key is missing after all earlier ones held, and then it names the key of that first missing criterion |
| `AttributeSearch.Search` | analytics.py:27-31 | the shared search loop returns exactly `Filter`: the matches in order, or the first KeyError |
| `AttributeSearch.SearchEdges` | analytics.py:16-31 | the edges returned are exactly the graph's edges whose attributes satisfy every criterion, in the reference order of `Filter` |
| `AttributeSearch.SearchNodes` | analytics.py:33-48 | the nodes returned are exactly the graph's nodes whose attributes satisfy every criterion, in the reference order of `Filter` |
| `AttributeSearch.SearchGraphs` | analytics.py:50-65 | the graphs returned are exactly the listed graphs whose graph-level attributes satisfy every criterion, in the reference order of `Filter` |
| `AttributeSearch.ErrorEndsSearch` | analytics.py:28-29 | a KeyError raised on a prefix of the elements is the result of the whole search |
| `AttributeSearch.FilterAppend` | analytics.py:28-30 | searching a concatenation searches the parts in turn and concatenates the matches, so the original iteration order is kept |
| `AttributeSearch.FilterSucceeds` | analytics.py:28-30 | a search returns a list exactly when no element's test raises KeyError |
| `AttributeSearch.FilterKeepsMatches` | analytics.py:28-30 | a successful search returns no more elements than it was given; it keeps every matching element and nothing that fails a criterion |
| `AttributeSearch.FilterAllMatching` | analytics.py:45-47 | when every element matches, the search returns all the elements, unchanged and in order |
| `AttributeSearch.FilterEmptyQuery` | analytics.py:62-64 | an empty query returns every element |
| `AttributeSearch.FilterRaisesAtFirst` | analytics.py:28-29 | a KeyError comes from the first element whose test raises, and every element before it was tested without error |
| `TileGeometry.TileLength` | analytics.py:144-162 | the lookup succeeds exactly for zoom levels 1..16, and then gives a positive length; any other key raises KeyError for that key |
| `TileGeometry.TileLengthHalves` | analytics.py:144-161 | for each zoom level 1..15 the next level's edge length is exactly half this level's |
| `TileGeometry.TileLengthClosedForm` | analytics.py:144-161 | the edge length at zoom z is the zoom-1 length halved z-1 times |
| `TileGeometry.MercatorCorners` | analytics.py:164-167 | the four offset points form an axis-aligned square: the top pair shares y+len/2, the bottom pair y-len/2, the left pair x-len/2 and the right pair x+len/2; both sides measure len, and the centre of the four points is the given centre |
| `TileGeometry.TileVertices` | analytics.py:130-168 | fails with KeyError exactly outside zoom levels 1..16; otherwise gives the inverse projections of the four corners offset by half the edge length around the projected centre |
| `TileGeometry.OutsideZoomRangeFails` | analytics.py:162 | zoom levels 0 and 17 raise KeyError and give no vertices |
| `TileGeometry.VerticesCentredOnProjection` | analytics.py:163-167 | when each point comes back unchanged from the inverse projection followed by the forward projection, the re-projected vertices are centred on the projected input point and both sides measure the zoom level's edge length |

## Left out

- `spherical_to_mercator_coordinates` and `mercator_to_spherical_coordinates` (analytics.py:98-128) are left out. They use floating-point `log`, `tan`, `atan` and `exp`, so `TileVertices` takes them as function parameters. Their round trip is only a hypothesis of `VerticesCentredOnProjection`.
- Floating point is not modelled. The table's literals and the corner offsets are exact reals. Each literal is exactly half the one before, and halving a double is exact, so the halving property also holds for the doubles the program stores.
- `orthodrome_length` (analytics.py:170-186) is left out. It is a call into the external `vincenty` library, scaled by 1000.
- The `__main__` block (analytics.py:189-210) is left out. It is a script with file paths, printing and calls into other modules, and none of those modules is part of this model.
- The text of the printed error message and the act of printing are left out. Only whether a character was invalid is kept, as the `valid` flag.
- The networkx graph is reduced to the sequences its iteration yields. The iteration order comes from the library and is taken as given.
- The query is a sequence of key/value pairs in keyword order. Python keyword arguments cannot repeat a key, and the model allows repeats without relying on them.
- The query keys come from `**kwargs`, so they are always strings, and a key named `graph` (for `search_edges` and `search_nodes`) or `graphs` (for `search_graphs`) cannot be passed: Python raises TypeError before the loop runs. The model's key type is generic and searches with any key.
- Attribute values are compared with Dafny equality. A user-defined Python `__eq__`, or a NaN that is unequal to itself, is not modelled.
- The zoom level is an `int`. Python would also accept an equal-hashing key such as `1.0` or `True`.
