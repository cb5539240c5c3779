/** The upright rectangle both framing previews build from the two hand
    positions, and the vertex buffer handed to the engine. The frame is
    assumed upright: only `y` is adjusted, `x` and `z` come from the hands. */
module Rectangle {
  import opened Basics

  /** Both previews refuse frames narrower or shorter than this. */
  const MinWidth: real := 0.3
  const MinHeight: real := 0.3

  datatype Corners = Corners(topLeft: Vec3, topRight: Vec3, botLeft: Vec3, botRight: Vec3, height: real)

  /** Builds the four corners from the left and right hand positions. The
      higher hand fixes the top row, the lower one the bottom row. */
  function BuildCorners(left: Vec3, right: Vec3): (c: Corners)
    ensures c.height >= 0.0 && c.height == Abs(left.y - right.y)
    ensures c.topLeft.y == c.topRight.y == Max(left.y, right.y)
    ensures c.botLeft.y == c.botRight.y == Min(left.y, right.y)
    ensures c.topLeft.y - c.botLeft.y == c.height
    ensures c.topLeft.x == c.botLeft.x == left.x && c.topLeft.z == c.botLeft.z == left.z
    ensures c.topRight.x == c.botRight.x == right.x && c.topRight.z == c.botRight.z == right.z
    ensures c.topLeft == left || c.botLeft == left
    ensures c.topRight == right || c.botRight == right
  {
    var height := left.y - right.y;
    if height > 0.0 then
      var topLeft := left;
      var botRight := right;
      Corners(topLeft, Vec3(botRight.x, botRight.y + height, botRight.z),
              Vec3(topLeft.x, topLeft.y - height, topLeft.z), botRight, height)
    else
      var h := -height;
      var topRight := right;
      var botLeft := left;
      Corners(Vec3(botLeft.x, botLeft.y + h, botLeft.z), topRight,
              botLeft, Vec3(topRight.x, topRight.y - h, topRight.z), h)
  }

  /** Whichever hand is higher stays exactly where it is. */
  lemma {:induction false} HigherHandIsTopCorner(left: Vec3, right: Vec3)
    ensures left.y > right.y ==> BuildCorners(left, right).topLeft == left
    ensures left.y < right.y ==> BuildCorners(left, right).topRight == right
    ensures left.y > right.y ==> BuildCorners(left, right).botRight == right
    ensures left.y < right.y ==> BuildCorners(left, right).botLeft == left
  {
  }

  /** The corners do not depend on which hand is called left when the hands
      are swapped and the columns with them: swapping the hands mirrors the
      rectangle left-to-right, at equal heights too. */
  lemma {:induction false} SwapHandsMirrors(left: Vec3, right: Vec3)
    ensures var c, m := BuildCorners(left, right), BuildCorners(right, left);
      m.topLeft == c.topRight && m.topRight == c.topLeft &&
      m.botLeft == c.botRight && m.botRight == c.botLeft && m.height == c.height
  {
  }

  /** Corner `k` of the vertex buffer: 0 top-left, 1 top-right, 2 bottom-left,
      3 bottom-right. */
  function CornerAt(c: Corners, k: nat): Vec3
    requires k < 4
  {
    if k == 0 then c.topLeft else if k == 1 then c.topRight
    else if k == 2 then c.botLeft else c.botRight
  }

  function Coord(v: Vec3, j: nat): real
    requires j < 3
  {
    if j == 0 then v.x else if j == 1 then v.y else v.z
  }

  /** The triangle list: two triangles sharing the top-right/bottom-left
      diagonal. */
  const Indices: seq<nat> := [0, 1, 2, 1, 3, 2]

  /** Texture coordinates of the four corners, in buffer order. */
  const Uvs: seq<real> := [0.0, 1.0, 1.0, 1.0, 0.0, 0.0, 1.0, 0.0]

  /** Positions, indices and texture coordinates of a rectangle mesh. */
  datatype VertexData = VertexData(positions: seq<real>, indices: seq<nat>, uvs: seq<real>)

  /** Flattens the corners into a 12-entry position buffer. */
  function Positions(c: Corners): (p: seq<real>)
    ensures |p| == 12
    ensures forall k, j :: 0 <= k < 4 && 0 <= j < 3 ==> p[3 * k + j] == Coord(CornerAt(c, k), j)
  {
    [c.topLeft.x, c.topLeft.y, c.topLeft.z,
     c.topRight.x, c.topRight.y, c.topRight.z,
     c.botLeft.x, c.botLeft.y, c.botLeft.z,
     c.botRight.x, c.botRight.y, c.botRight.z]
  }

  function VertexDataOf(c: Corners): VertexData
  {
    VertexData(Positions(c), Indices, Uvs)
  }

  /** Every index names one of the four buffered corners, each corner is
      used, and there is one UV pair per corner. */
  lemma IndicesWellFormed()
    ensures |Indices| % 3 == 0
    ensures forall i :: 0 <= i < |Indices| ==> Indices[i] < 4
    ensures forall k :: 0 <= k < 4 ==> k in Indices
    ensures |Uvs| == 2 * 4
  {
  }

  /** The preview is shown red when either side is below its minimum. */
  predicate TooSmall(height: real, width: real)
  {
    height < MinHeight || width < MinWidth
  }
}
