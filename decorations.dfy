/** The deterministic decorations of a segment: lane stripes and mirrored rows of trees. */
module Decorations {
  import opened Dimensions

  /** The geometries the loops create, with their constructor arguments. */
  datatype Shape =
    | Box(width: real, height: real, depth: real)
    | Cylinder(radiusTop: real, radiusBottom: real, height: real)
    | Sphere(radius: real)

  /** A mesh added to a group, with its local position. */
  datatype Mesh = Mesh(shape: Shape, x: real, y: real, z: real)

  const STRIPE_SPACING: int := 5
  const TREE_SPACING: int := 10
  const STRIPE_Y: real := 0.01
  const TREE_X: real := 3.5
  const TRUNK_Y: real := -0.5
  const CROWN_Y: real := 0.4

  const STRIPE: Shape := Box(0.3, 0.01, 1.0)
  const TRUNK: Shape := Cylinder(0.2, 0.2, 1.0)
  const CROWN: Shape := Sphere(0.6)

  /** The stripe at loop counter value `z`. */
  function StripeAt(z: int): Mesh {
    Mesh(STRIPE, 0.0, STRIPE_Y, z as real)
  }

  /** The counter value of the k-th stripe. */
  function StripeZ(k: int): int {
    -HALF + STRIPE_SPACING * k
  }

  /** The stripe group: 40 stripes down the centre line, one every 5 units from -HALF. */
  ghost predicate StripesPlaced(stripes: seq<Mesh>) {
    && |stripes| == SEG_LEN / STRIPE_SPACING
    && forall k :: 0 <= k < |stripes| ==> stripes[k] == StripeAt(StripeZ(k))
  }

  /** The stripe loop, returning the children added to the stripe group, in order. */
  method PlaceStripes() returns (stripes: seq<Mesh>)
    ensures StripesPlaced(stripes)
    ensures |stripes| == 40
    ensures forall m :: m in stripes ==> m.shape == STRIPE && m.x == 0.0 && m.y == STRIPE_Y
    ensures forall m :: m in stripes ==> -HALF as real <= m.z < HALF as real
  {
    stripes := [];
    var i := -HALF;
    while i < HALF
      invariant -HALF <= i <= HALF
      invariant i == StripeZ(|stripes|)
      invariant forall k :: 0 <= k < |stripes| ==> stripes[k] == StripeAt(StripeZ(k))
      invariant forall m :: m in stripes ==> -HALF as real <= m.z < i as real
      decreases HALF - i
    {
      stripes := stripes + [StripeAt(i)];
      i := i + STRIPE_SPACING;
    }
  }

  /** The counter value of the k-th tree position. */
  function TreeZ(k: int): int {
    -HALF + TREE_SPACING * k
  }

  /**
   * What one iteration of the tree loop adds, in order: left trunk, left crown,
   * then their clones moved to the right side.
   */
  function TreePair(z: int): seq<Mesh> {
    [Mesh(TRUNK, -TREE_X, TRUNK_Y, z as real), Mesh(CROWN, -TREE_X, CROWN_Y, z as real),
     Mesh(TRUNK, TREE_X, TRUNK_Y, z as real), Mesh(CROWN, TREE_X, CROWN_Y, z as real)]
  }

  /** The four meshes added by the k-th iteration. */
  function Row(trees: seq<Mesh>, k: nat): seq<Mesh>
    requires 4 * k + 4 <= |trees|
  {
    trees[4 * k .. 4 * k + 4]
  }

  /** The tree group: 20 rows, one every 10 units from -HALF, four meshes each. */
  ghost predicate TreesPlaced(trees: seq<Mesh>) {
    && |trees| == 4 * (SEG_LEN / TREE_SPACING)
    && forall k: nat :: k < SEG_LEN / TREE_SPACING ==> Row(trees, k) == TreePair(TreeZ(k))
  }

  /** The tree loop, returning the children added to the tree group, in order. */
  method PlaceTrees() returns (trees: seq<Mesh>)
    ensures TreesPlaced(trees)
    ensures |trees| == 80
    ensures forall m :: m in trees ==> -HALF as real <= m.z < HALF as real
  {
    trees := [];
    var i := -HALF;
    var n: nat := 0;
    while i < HALF
      invariant -HALF <= i <= HALF
      invariant i == TreeZ(n) && |trees| == 4 * n
      invariant forall k: nat :: k < n ==> Row(trees, k) == TreePair(TreeZ(k))
      invariant forall m :: m in trees ==> -HALF as real <= m.z < i as real
      decreases HALF - i
    {
      ghost var before := trees;
      trees := trees + TreePair(i);
      assert forall k: nat :: k < n ==> Row(trees, k) == Row(before, k);
      assert Row(trees, n) == TreePair(i);
      i := i + TREE_SPACING;
      n := n + 1;
    }
  }

  /** Every tree row is mirrored across the road: the right pair is the left pair with x negated. */
  lemma {:induction false} TreesMirrored(trees: seq<Mesh>, k: nat)
    requires TreesPlaced(trees)
    requires k < SEG_LEN / TREE_SPACING
    ensures trees[4 * k + 2] == trees[4 * k].(x := -trees[4 * k].x)
    ensures trees[4 * k + 3] == trees[4 * k + 1].(x := -trees[4 * k + 1].x)
    ensures trees[4 * k].x == -TREE_X && trees[4 * k].shape == TRUNK && trees[4 * k].y == TRUNK_Y
    ensures trees[4 * k + 1].shape == CROWN && trees[4 * k + 1].y == CROWN_Y
    ensures trees[4 * k].z == trees[4 * k + 1].z == TreeZ(k) as real
  {
    assert Row(trees, k) == TreePair(TreeZ(k));
    assert trees[4 * k] == Row(trees, k)[0];
    assert trees[4 * k + 1] == Row(trees, k)[1];
    assert trees[4 * k + 2] == Row(trees, k)[2];
    assert trees[4 * k + 3] == Row(trees, k)[3];
  }

  /** The stripes are evenly spaced, one every 5 units, starting at -HALF and ending before HALF. */
  lemma StripesEvenlySpaced(stripes: seq<Mesh>, k: int)
    requires StripesPlaced(stripes)
    requires 0 < k < |stripes|
    ensures stripes[k].z - stripes[k - 1].z == STRIPE_SPACING as real
    ensures stripes[0].z == -HALF as real && stripes[|stripes| - 1].z == (HALF - STRIPE_SPACING) as real
  {
  }
}
