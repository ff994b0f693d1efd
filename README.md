# Fractal tree — a Dafny model of canvas.js

The program draws a fractal tree on an HTML canvas. `createTree` builds a
binary tree of branch nodes once. Each node has a base line (A, B), a list
of randomly drawn leaves, and up to two children. Every animation frame,
`updateTree` moves each node's base line in place to follow the sliders
(trunk height, branching angle, parent/child length ratio), and `drawTree`
draws the tree down to the wanted depth: the node's line, one kite-shaped
polygon per leaf (`drawLeaf`), then the left and the right subtree.

The model has seven modules:

- `Geometry`: points and segments, `calcLength`, the random-number helpers,
  the two formulas that place a child's end point, and the draw events that
  stand for the canvas context.
- `Leaves`: the leaf record, the leaf createTree draws at random, and
  drawLeaf's point arithmetic.
- `TreeSpec`: the tree as a value, plus the functions that say what
  createTree (`Build`), updateTree (`Updated`) and drawTree (`Drawn`)
  compute.
- `Canvas`: the program as it is written, imperatively.
  - A class `BranchNode` whose fields the methods update in place.
  - `CreateTree`, with the counting loop that pushes leaves.
  - `UpdateTree`, which rewrites base lines node by node.
  - `DrawTree`, with the loop over a node's leaves.
  - Each method is proved against the matching `TreeSpec` function through a
    ghost `Contents` field.
- `BuildProps`, `UpdateProps` and `DrawProps`: what those functions
  guarantee.

Oracles and fixed values:

- The cosine and sine of the angle are inputs (`Params`).
- The square root is an oracle `sqrt`. Lemmas that need a real square root
  assume `IsSqrt(sqrt)`.
- `Math.random` is a stream `rng: nat -> real` read from a cursor. Each leaf
  takes five draws in source order: ratio, side, red, green, blue.
- DEPTH_MAX and the leaf depth range are a `Config`. The program's values are
  `CanvasConfig` = (14, 2, 10).

## Model

| member | source | states |
|---|---|---|
| Geometry.CalcLengthSquares | canvas.js:26-28 | with a true square root, calcLength is non-negative and its square is the squared distance |
| Geometry.SqDistNonNegative | canvas.js:27 | the sum under calcLength's square root is never negative, and zero for equal points |
| Geometry.DistinctPointsSqDist | canvas.js:27 | the sum under calcLength's square root is positive for two distinct points |
| Geometry.DistinctPointsPositiveLength | canvas.js:26-28 | with a true square root, calcLength of two distinct points is positive |
| Geometry.SqrtOfSquare | canvas.js:27 | Math.sqrt of len * len is len for len >= 0, so a branch of known length has that calcLength |
| Geometry.RandomNumberRange | canvas.js:30-32 | getRandomNumber(a, b) lies in [a, b) for a draw in [0, 1) and a < b, and is a when a == b |
| Geometry.RoundNearest | canvas.js:85 | Math.round gives the integer within one half, halves rounded up |
| Geometry.RandomChannelRange | canvas.js:36-38 | Math.floor(getRandomNumber(lo, hi)) lies in [lo, hi), or is lo when the bounds agree |
| Geometry.RandomColorRange | canvas.js:34-40 | each channel of getRandomColor lies between the two colours' channels, or equals them when they agree |
| Geometry.ChildEndsMirror | canvas.js:97-98 | the left and right child offsets from B add up to 2 * ratio * cos times the parent direction |
| Geometry.ChildArmsEqualLength | canvas.js:97-98 | both children have squared length ratio^2 (cos^2 + sin^2) times the parent's squared length |
| Geometry.NegatedAngleSwapsChildren | canvas.js:106-107 | negating the angle's sine swaps the left and the right child end |
| Geometry.ChildOffsets | canvas.js:97-107 | with d = B - A, c = ratio * cos and s = ratio * sin, the left child's offset from B is (c d.x + s d.y, c d.y - s d.x) and the right one's (c d.x - s d.y, c d.y + s d.x) |
| Geometry.ChildEndsReflect | canvas.js:97-98 | the right child's end is the left child's end reflected across the parent branch's line: v = left - B projects onto d = B - A as ratio * cos * d, and right - B = 2 ratio cos d - v |
| Geometry.ChildEndsDistinct | canvas.js:97-107 | for a branch of positive length, a non-zero ratio and an angle whose cos and sin are not both 0, both child branches have positive length |
| Leaves.RandomLeafInRange | canvas.js:82-91 | with Math.random draws in [0, 1), a pushed leaf has branchRatio in [0, 1), branchSide 0 or 1, red in [0, 255), green in [150, 200), blue 0 |
| Leaves.NewLeavesInRange | canvas.js:81-92 | every leaf of a batch pushed by the counting loop has its parameters in those ranges |
| Leaves.LeafAxis | canvas.js:150-165 | the leaf axis is the branch direction turned a quarter turn, scaled by LEAF_LEN / branchLen, with the sign chosen by branchSide |
| Leaves.LeafOnBranch | canvas.js:150-165 | the leaf base is A + branchRatio (B - A); the axis is perpendicular to the branch; the cross product of B - A with the axis is negative for a truthy side and positive for side 0, so on the canvas (y pointing down) a side-1 leaf lies on the screen-left of A -> B |
| Leaves.LeafSidesOpposite | canvas.js:155-165 | the two branchSide values give the same base and opposite axes |
| Leaves.LeafAxisLength | canvas.js:148-165 | with the true branch length the leaf axis is LEAF_LEN long |
| Leaves.LeafArms | canvas.js:167-179 | the pivot sits LEAF_ARM_RATIO along the axis; the arms are the axis turned both ways, scaled by LEAF_ARM_LEN / LEAF_LEN; they are symmetric about the pivot and perpendicular to the axis |
| Leaves.LeafArmLength | canvas.js:167-179 | on a leaf whose axis is LEAF_LEN long, each arm is LEAF_ARM_LEN long |
| Leaves.LeafSizes | canvas.js:147-185 | with the true branch length, the axis is LEAF_LEN long and each arm LEAF_ARM_LEN long |
| Leaves.DrawLeafIsKite | canvas.js:181-184 | drawLeaf fills exactly the polygon [leafBegin, arm1, leafEnd, arm2] in the leaf's colour, and its vertices 1 and 3 mirror each other across the axis from vertex 0 to vertex 2 |
| TreeSpec.LeafPolygonsAt | canvas.js:193-199 | the leaf loop draws one polygon per leaf, and polygon i is drawLeaf of leaf i |
| BuildProps.CompleteSize | canvas.js:66-114 | a complete tree of height h has 2^h - 1 nodes |
| BuildProps.BuildComplete | canvas.js:66-114 | createTree from depth builds a complete tree of height DEPTH_MAX - depth, or nothing at or past DEPTH_MAX |
| BuildProps.BuildShape | canvas.js:66-114 | createTree returns nothing exactly when depth >= DEPTH_MAX, a childless node at DEPTH_MAX - 1, and 2^(DEPTH_MAX - depth) - 1 nodes in all |
| BuildProps.BuildNext | canvas.js:81-92 | createTree consumes exactly five random draws per leaf and no others |
| BuildProps.LeafCountBounds | canvas.js:76-80 | no leaves off the depth range; on it, with a true square root, k leaves where k * LEN_PER_LEAF <= length < (k + 1) * LEN_PER_LEAF; a branch with leaves is at least LEN_PER_LEAF long |
| BuildProps.LeafCountExample | canvas.js:76-81 | a branch 90 long gets three leaves at depth 3 and none at depth 1; one 89 long gets two, as the floor rounds down |
| BuildProps.BuildLeafCounts | canvas.js:71-93 | every node createTree builds lies in [depth, DEPTH_MAX) and carries exactly the leaf count of its own base line and depth |
| BuildProps.LeavesOnlyInRange | canvas.js:76-78 | a node with leaves lies on the leaf depth range |
| BuildProps.CanvasTopIsBare | canvas.js:16 | with the leaf range starting at 2, the nodes at depth 0 and 1 have no leaves |
| BuildProps.BuildLeavesInRange | canvas.js:81-92 | with Math.random draws, every leaf of the tree has its parameters in range |
| BuildProps.BuildWellShaped | canvas.js:95-111 | the root's base line is (A, B), and every child starts at its parent's B and ends where the branching formulas put it, with the same angle and ratio |
| BuildProps.BuildNondegenerate | canvas.js:76-93 | every branch createTree gives leaves has positive length, so drawLeaf can divide by it |
| UpdateProps.UpdateKeepsShape | canvas.js:116-145 | updateTree keeps every node, child link and leaf |
| UpdateProps.SameShape | canvas.js:116-145 | trees of the same shape have the same node count, leaf count and completeness |
| UpdateProps.UpdateIdempotent | canvas.js:116-145 | updating twice with the same arguments is updating once |
| UpdateProps.UpdateLastWins | canvas.js:116-145 | updateTree on an already updated tree gives what one update with the last arguments gives |
| UpdateProps.FramesLastWins | canvas.js:222-229 | after any non-empty run of animation frames, the tree is the start tree updated once with the last frame's values |
| UpdateProps.UpdateWellShaped | canvas.js:121-144 | after updateTree on a tree above the depth bound, the root lies on (A, B) and every child hangs from its parent by the branching formulas |
| UpdateProps.UpdateNondegenerate | canvas.js:116-145 | on a complete tree within the depth bound, updateTree with a trunk of positive length, a non-zero ratio and cos, sin not both 0 leaves no zero-length branch |
| UpdateProps.UpdateMatchesBuild | canvas.js:116-145 | on a tree of createTree's height, updateTree gives, node for node in pre-order, the base lines a fresh createTree with the same arguments would |
| UpdateProps.UpdateOfBuilt | canvas.js:209-229 | the built tree updated with new slider values keeps its shape and has a fresh tree's base lines |
| UpdateProps.UpdateAfterBuild | canvas.js:116-145 | updating a freshly built tree with its own arguments changes nothing |
| DrawProps.DrawableIffPruned | canvas.js:187-207 | drawTree can draw every leaf it reaches iff the top depthWanted - currDepth levels have no zero-length leafy branch |
| DrawProps.NondegeneratePrune | canvas.js:187-190 | cutting levels off a tree keeps leafy branches non-degenerate |
| DrawProps.DrawnIsPrunedRender | canvas.js:187-207 | drawTree draws the pre-order rendering of the top depthWanted - currDepth levels: nothing when currDepth >= depthWanted, otherwise line, leaves, left, right |
| DrawProps.LeafPolygonsCounts | canvas.js:193-199 | the leaf loop draws no lines and one polygon per leaf |
| DrawProps.RenderCounts | canvas.js:191-206 | a full pre-order rendering has one line per node and one polygon per leaf |
| DrawProps.PruneComplete | canvas.js:188-190 | the top k levels of a complete tree of height h form a complete tree of height min(k, h) |
| DrawProps.DrawnCompleteCounts | canvas.js:187-207 | on a complete tree of height h, drawTree draws 2^min(depthWanted - currDepth, h) - 1 lines and one polygon per leaf it reaches |
| DrawProps.BuiltDrawable | canvas.js:187-207 | a tree createTree built can be drawn to any depth |
| DrawProps.DrawnBuiltCounts | canvas.js:209-231 | drawTree(tree, 0, depthWanted) on the built tree draws 2^min(depthWanted, DEPTH_MAX) - 1 lines |
| DrawProps.DrawnUpdatedCounts | canvas.js:217-232 | the frame drawn after updateTree also has 2^min(depthWanted, DEPTH_MAX) - 1 lines |
| DrawProps.DrawnFrameCounts | canvas.js:217-232 | createTree's tree after updateTree with slider values whose trunk has positive length, non-zero ratio and cos, sin not both 0 can be drawn in full and has 2^min(depthWanted, DEPTH_MAX) - 1 lines and one polygon per leaf reached |
| DrawProps.DrawnAfterFrames | canvas.js:217-232 | the same for every frame, however many updateTree calls came before it, when the latest frame's slider values are of that kind |
| DrawProps.DrawnTrunkOnly | canvas.js:187-207 | depthWanted = 1 draws the trunk's line alone, with no polygon |
| Canvas.BranchNode.constructor | canvas.js:71-74 | the node literal: base line (A, B), no leaves, no children |
| Canvas.CreateTree | canvas.js:66-114 | returns null exactly when depth >= DEPTH_MAX; otherwise a fresh valid node structure whose contents are Build's tree; the stream position after it is Build's |
| Canvas.NewBranch | canvas.js:71-93 | a fresh node on (A, B) whose leaves are the Math.floor(length / LEN_PER_LEAF) random leaves on the leaf range and none off it |
| Canvas.GrowLeaves | canvas.js:81-92 | the counting loop pushes max(count, 0) leaves, five draws each, in order |
| Canvas.Attach | canvas.js:95-113 | storing the two recursive results as children leaves a valid node with those subtrees and its own line and leaves |
| Canvas.UpdateTree | canvas.js:116-145 | same nodes, leaves and child links; the contents become Updated of the old contents |
| Canvas.DrawTree | canvas.js:187-207 | the events drawn are Drawn of the node's contents |
| Canvas.DrawLeafs | canvas.js:193-199 | the loop draws LeafPolygons of the node's leaves, in order |

## Left out

- The page setup, the sliders and CENTER (canvas.js:1-8, 11-14, 22, 209-215) are not modelled. Their values are parameters of the lemmas.
- JavaScript coerces the depth slider's string value to a number in the `currDepth >= depthWanted` comparison. This is not modelled: depthWanted is an integer.
- The canvas context calls (canvas.js:42-62) are not modelled. drawLine and drawPolygon become `Line` and `Poly` draw events, so stroke, fill style and path closing are not modelled.
- requestAnimationFrame and the loop's timing (canvas.js:217-234) are not modelled. The frames' updateTree calls are a sequence of slider values (UpdateProps.UpdatedByFrames), and what each frame draws is stated by DrawProps.DrawnUpdatedCounts, DrawProps.DrawnFrameCounts and DrawProps.DrawnAfterFrames.
- Math.random is not modelled. It is an input stream `rng` with a cursor.
- The colour is an `Rgba` record, not the 'rgba(r, g, b, 1)' string getRandomColor builds.
- Math.cos, Math.sin and Math.sqrt are inputs, so the proofs hold for any values of them.
- IEEE floating-point rounding is not modelled. All arithmetic is on exact reals.
- Canvas.DrawTree and Leaves.DrawLeaf require every leafy branch they reach to have positive length.
  - JavaScript would divide by zero there and draw NaN coordinates.
  - createTree never builds such a branch (BuildProps.BuildNondegenerate).
  - updateTree can produce one, for example with a ratio of 0. DrawProps.DrawnFrameCounts and DrawProps.DrawnAfterFrames show it cannot when the trunk has positive length, the ratio is non-zero and cos, sin are not both 0.
- DrawProps.DrawnUpdatedCounts takes drawability as a precondition, because a ratio of 0 or a zero-length trunk makes the frame undrawable; DrawProps.DrawnFrameCounts discharges it for the other slider values.
- BuildProps and DrawProps state the fixed program's facts for any DEPTH_MAX; only the leaf range's start is fixed at 2 where it matters.
  - The number 2^14 - 1 = 16383 for DEPTH_MAX = 14 is not stated.
  - The reason: unfolding createTree's specification to a concrete depth of 14 is too costly for the verifier.
- Canvas.BranchNode keeps ghost `Contents` and `Repr` fields. They specify the methods; they are not part of the JavaScript object.
