/**
 * The box-specification generator: mixture recipes and solvation rows become
 * a deduplicated, deterministically ordered list of box compositions, each
 * emitted as two index-aligned arrays (`smiles`, `n_molecules`).
 */
module BoxSpecs {
  import opened Wrappers
  import opened Ordering

  /** One component of a mixture recipe: a SMILES string and its mole fraction. */
  datatype Component = Component(smiles: string, moleFraction: real)

  type Recipe = seq<Component>

  /** The pair `(smiles, count)` of a box tuple. */
  datatype Species = Species(smiles: string, count: int)

  /** A box: the tuple of `(smiles, count)` pairs. */
  type Box = seq<Species>

  /** One row of the solvation table: a solute and the solvent it is dissolved in. */
  datatype SolvationRow = SolvationRow(solute: string, solvent: string)

  /** One emitted JSON object `{"smiles": [...], "n_molecules": [...]}`. */
  datatype BoxRecord = BoxRecord(smiles: seq<string>, nMolecules: seq<int>)

  function Abs(x: real): real {
    if x < 0.0 then -x else x
  }

  // ---------------------------------------------------------------------------
  // Counts of the main box

  /** Python's `round(x)`: the nearest integer, ties going to the even one. */
  function RoundHalfEven(x: real): (r: int)
    ensures Abs(x - r as real) <= 0.5
    ensures Abs(x - r as real) == 0.5 ==> r % 2 == 0
  {
    var f := x.Floor;
    var d := x - f as real;
    if d < 0.5 then f
    else if d > 0.5 then f + 1
    else if f % 2 == 0 then f
    else f + 1
  }

  /** The rounded value is at least as close to `x` as any other integer. */
  lemma RoundIsNearest(x: real, k: int)
    ensures Abs(x - RoundHalfEven(x) as real) <= Abs(x - k as real)
  {
    var r := RoundHalfEven(x);
    if k < r {
      assert k as real <= r as real - 1.0;
    } else if k > r {
      assert k as real >= r as real + 1.0;
    }
  }

  /** An integer within 0.5 of `x`, and even when exactly 0.5 away, is the rounded value. */
  lemma RoundIsUnique(x: real, k: int)
    requires Abs(x - k as real) < 0.5 || (Abs(x - k as real) == 0.5 && k % 2 == 0)
    ensures k == RoundHalfEven(x)
  {
  }

  /** `sum(mole_fraction for component in recipe)`, added left to right from 0. */
  function FractionSum(recipe: Recipe): real {
    if recipe == [] then 0.0 else FractionSum(recipe[..|recipe| - 1]) + recipe[|recipe| - 1].moleFraction
  }

  /** The assertion of `turn_property_into_boxes`: the fractions sum to exactly 1.0. */
  predicate FractionsSumToOne(recipe: Recipe) {
    FractionSum(recipe) == 1.0
  }

  /** `int(round(mole_fraction * n_molecules))`. */
  function MoleculeCount(c: Component, n: int): int {
    RoundHalfEven(c.moleFraction * n as real)
  }

  /** The main box before sorting: one pair per component, in recipe order. */
  function UnsortedMainBox(recipe: Recipe, n: int): (b: Box)
    ensures |b| == |recipe|
    ensures forall i :: 0 <= i < |recipe| ==> b[i] == Species(recipe[i].smiles, MoleculeCount(recipe[i], n))
  {
    seq(|recipe|, i requires 0 <= i < |recipe| => Species(recipe[i].smiles, MoleculeCount(recipe[i], n)))
  }

  // ---------------------------------------------------------------------------
  // `main_box.sort(key=lambda x: x[::-1])`: ascending by (count, smiles)

  /** Key order of the main-box sort: `(p.count, p.smiles) <= (q.count, q.smiles)`. */
  predicate CountKeyLe(p: Species, q: Species) {
    p.count < q.count || (p.count == q.count && (p.smiles == q.smiles || StrLt(p.smiles, q.smiles)))
  }

  lemma CountKeyTotal(p: Species, q: Species)
    ensures CountKeyLe(p, q) || CountKeyLe(q, p)
  {
    if p.count == q.count && p.smiles != q.smiles {
      StrLtTotal(p.smiles, q.smiles);
    }
  }

  lemma CountKeyTransitive(p: Species, q: Species, s: Species)
    requires CountKeyLe(p, q) && CountKeyLe(q, s)
    ensures CountKeyLe(p, s)
  {
    if p.count == q.count == s.count && p.smiles != q.smiles && q.smiles != s.smiles {
      StrLtTransitive(p.smiles, q.smiles, s.smiles);
    }
  }

  lemma CountKeyAntisymmetric(p: Species, q: Species)
    requires CountKeyLe(p, q) && CountKeyLe(q, p)
    ensures p == q
  {
    if p.smiles != q.smiles {
      StrLtTransitive(p.smiles, q.smiles, p.smiles);
      StrLtIrreflexive(p.smiles);
    }
  }

  predicate SortedByCount(s: seq<Species>) {
    forall i, j :: 0 <= i < j < |s| ==> CountKeyLe(s[i], s[j])
  }

  function InsertByCount(p: Species, s: seq<Species>): seq<Species> {
    if s == [] then [p]
    else if CountKeyLe(p, s[0]) then [p] + s
    else [s[0]] + InsertByCount(p, s[1..])
  }

  /** The list sort, as an insertion sort on values. */
  function SortByCount(s: seq<Species>): seq<Species> {
    if s == [] then [] else InsertByCount(s[0], SortByCount(s[1..]))
  }

  lemma {:induction false} InsertByCountPermutes(p: Species, s: seq<Species>)
    ensures multiset(InsertByCount(p, s)) == multiset(s) + multiset{p}
    decreases |s|
  {
    if s != [] && !CountKeyLe(p, s[0]) {
      InsertByCountPermutes(p, s[1..]);
      assert s == [s[0]] + s[1..];
    }
  }

  /** Sorting only rearranges: the result has the same multiset of pairs. */
  lemma {:induction false} SortByCountPermutes(s: seq<Species>)
    ensures multiset(SortByCount(s)) == multiset(s)
    decreases |s|
  {
    if s != [] {
      SortByCountPermutes(s[1..]);
      InsertByCountPermutes(s[0], SortByCount(s[1..]));
      assert s == [s[0]] + s[1..];
    }
  }

  lemma {:induction false} InsertByCountSorted(p: Species, s: seq<Species>)
    requires SortedByCount(s)
    ensures SortedByCount(InsertByCount(p, s))
    decreases |s|
  {
    if s == [] {
    } else if CountKeyLe(p, s[0]) {
      var r := [p] + s;
      forall i, j | 0 <= i < j < |r| ensures CountKeyLe(r[i], r[j]) {
        if i == 0 && j > 1 {
          CountKeyTransitive(p, s[0], s[j - 1]);
        }
      }
    } else {
      CountKeyTotal(p, s[0]);
      InsertByCountSorted(p, s[1..]);
      InsertByCountPermutes(p, s[1..]);
      var tail := InsertByCount(p, s[1..]);
      var r := [s[0]] + tail;
      forall j | 0 <= j < |tail| ensures CountKeyLe(s[0], tail[j]) {
        assert tail[j] in multiset(tail);
        if tail[j] != p {
          assert tail[j] in multiset(s[1..]);
          var k :| 0 <= k < |s[1..]| && s[1..][k] == tail[j];
          assert s[k + 1] == tail[j];
        }
      }
      forall i, j | 0 <= i < j < |r| ensures CountKeyLe(r[i], r[j]) {
        if i > 0 {
          assert r[i] == tail[i - 1] && r[j] == tail[j - 1];
        }
      }
    }
  }

  lemma {:induction false} SortByCountSorted(s: seq<Species>)
    ensures SortedByCount(SortByCount(s))
    decreases |s|
  {
    if s != [] {
      SortByCountSorted(s[1..]);
      InsertByCountSorted(s[0], SortByCount(s[1..]));
    }
  }

  lemma HeadAndTail(s: seq<Species>)
    requires s != []
    ensures s == [s[0]] + s[1..]
    ensures multiset(s[1..]) == multiset(s) - multiset{s[0]}
    ensures SortedByCount(s) ==> SortedByCount(s[1..])
  {
    assert multiset(s) == multiset([s[0]]) + multiset(s[1..]) by {
      assert s == [s[0]] + s[1..];
    }
  }

  /** A sequence sorted by (count, smiles) is determined by its multiset of pairs. */
  lemma {:induction false} SortedByCountUnique(a: seq<Species>, b: seq<Species>)
    requires SortedByCount(a) && SortedByCount(b)
    requires multiset(a) == multiset(b)
    ensures a == b
    decreases |a|
  {
    assert |a| == |multiset(a)| == |multiset(b)| == |b|;
    if a != [] {
      assert a[0] in multiset(b);
      assert b[0] in multiset(a);
      var i :| 0 <= i < |a| && a[i] == b[0];
      var j :| 0 <= j < |b| && b[j] == a[0];
      assert CountKeyLe(b[0], a[0]) by {
        if j > 0 { assert CountKeyLe(b[0], b[j]); }
      }
      assert CountKeyLe(a[0], b[0]) by {
        if i > 0 { assert CountKeyLe(a[0], a[i]); }
      }
      CountKeyAntisymmetric(a[0], b[0]);
      HeadAndTail(a);
      HeadAndTail(b);
      SortedByCountUnique(a[1..], b[1..]);
    }
  }

  // ---------------------------------------------------------------------------
  // The boxes of one recipe (`turn_property_into_boxes`)

  /** The main box: one pair per component, sorted ascending by (count, smiles). */
  function MainBox(recipe: Recipe, n: int): Box {
    SortByCount(UnsortedMainBox(recipe, n))
  }

  /** A box of `n` molecules of one species. */
  function PureBox(smiles: string, n: int): Box {
    [Species(smiles, n)]
  }

  function PureBoxes(recipe: Recipe, n: int): set<Box> {
    set c | c in recipe :: PureBox(c.smiles, n)
  }

  lemma PureBoxesSnoc(recipe: Recipe, c: Component, n: int)
    ensures PureBoxes(recipe + [c], n) == PureBoxes(recipe, n) + {PureBox(c.smiles, n)}
  {
    assert forall d :: d in recipe + [c] <==> d in recipe || d == c;
  }

  /** What `turn_property_into_boxes` returns for a recipe whose fractions sum to 1. */
  function RecipeBoxes(recipe: Recipe, n: int): set<Box> {
    PureBoxes(recipe, n) + {MainBox(recipe, n)}
  }

  /**
   * The main box is a sorted arrangement of exactly the rounded pairs of the
   * recipe, one per component, and no other arrangement of those pairs is sorted.
   */
  lemma MainBoxIsSortedPermutation(recipe: Recipe, n: int)
    ensures SortedByCount(MainBox(recipe, n))
    ensures multiset(MainBox(recipe, n)) == multiset(UnsortedMainBox(recipe, n))
    ensures |MainBox(recipe, n)| == |recipe|
    ensures forall b :: SortedByCount(b) && multiset(b) == multiset(UnsortedMainBox(recipe, n)) ==> b == MainBox(recipe, n)
  {
    SortByCountSorted(UnsortedMainBox(recipe, n));
    SortByCountPermutes(UnsortedMainBox(recipe, n));
    assert |multiset(MainBox(recipe, n))| == |multiset(UnsortedMainBox(recipe, n))|;
    forall b | SortedByCount(b) && multiset(b) == multiset(UnsortedMainBox(recipe, n))
      ensures b == MainBox(recipe, n)
    {
      SortedByCountUnique(b, MainBox(recipe, n));
    }
  }

  /** Recipes listing the same rounded pairs in any order give the same main box. */
  lemma MainBoxIgnoresComponentOrder(r1: Recipe, r2: Recipe, n: int)
    requires multiset(UnsortedMainBox(r1, n)) == multiset(UnsortedMainBox(r2, n))
    ensures MainBox(r1, n) == MainBox(r2, n)
  {
    SortByCountSorted(UnsortedMainBox(r1, n));
    SortByCountSorted(UnsortedMainBox(r2, n));
    SortByCountPermutes(UnsortedMainBox(r1, n));
    SortByCountPermutes(UnsortedMainBox(r2, n));
    SortedByCountUnique(MainBox(r1, n), MainBox(r2, n));
  }

  /** Every component contributes its pure box of `n` molecules. */
  lemma PureBoxForEveryComponent(recipe: Recipe, n: int, c: Component)
    requires c in recipe
    ensures [Species(c.smiles, n)] in RecipeBoxes(recipe, n)
  {
  }

  /** A one-component recipe of fraction 1.0: its main box is its pure box, so one box results. */
  lemma SingleComponentRecipe(smiles: string, n: int)
    ensures FractionSum([Component(smiles, 1.0)]) == 1.0
    ensures RecipeBoxes([Component(smiles, 1.0)], n) == {[Species(smiles, n)]}
    ensures |RecipeBoxes([Component(smiles, 1.0)], n)| == 1
  {
    var recipe := [Component(smiles, 1.0)];
    assert recipe[..0] == [];
    RoundIsUnique(1.0 * n as real, n);
    assert UnsortedMainBox(recipe, n) == [Species(smiles, n)];
    assert [Species(smiles, n)][1..] == [];
    assert SortByCount([Species(smiles, n)]) == InsertByCount(Species(smiles, n), []);
    assert MainBox(recipe, n) == [Species(smiles, n)];
    assert PureBoxes(recipe, n) == {[Species(smiles, n)]};
  }

  /** Fractions 0.25/0.75 of 100 molecules give the main box [("A", 25), ("B", 75)], whatever the component order. */
  lemma MixedRecipeExample()
    ensures MainBox([Component("A", 0.25), Component("B", 0.75)], 100) == [Species("A", 25), Species("B", 75)]
    ensures MainBox([Component("B", 0.75), Component("A", 0.25)], 100) == [Species("A", 25), Species("B", 75)]
  {
    RoundIsUnique(0.25 * 100.0, 25);
    RoundIsUnique(0.75 * 100.0, 75);
    assert UnsortedMainBox([Component("A", 0.25), Component("B", 0.75)], 100) == [Species("A", 25), Species("B", 75)];
    assert UnsortedMainBox([Component("B", 0.75), Component("A", 0.25)], 100) == [Species("B", 75), Species("A", 25)];
  }

  /**
   * Counts are rounded half to even and not renormalised: two halves of five
   * molecules give two molecules each, four in all.
   */
  lemma RoundingDoesNotRenormalise()
    ensures FractionSum([Component("O", 0.5), Component("N", 0.5)]) == 1.0
    ensures MainBox([Component("O", 0.5), Component("N", 0.5)], 5) == [Species("N", 2), Species("O", 2)]
  {
    var recipe := [Component("O", 0.5), Component("N", 0.5)];
    assert recipe[..1] == [Component("O", 0.5)] && recipe[..1][..0] == [];
    RoundIsUnique(0.5 * 5.0, 2);
    assert UnsortedMainBox(recipe, 5) == [Species("O", 2), Species("N", 2)];
    assert StrLt("N", "O");
  }

  /** `turn_property_into_boxes`: None when the assertion on the fractions fails. */
  method TurnPropertyIntoBoxes(recipe: Recipe, n: int) returns (r: Option<set<Box>>)
    ensures r.None? <==> !FractionsSumToOne(recipe)
    ensures r.Some? ==> r.value == RecipeBoxes(recipe, n)
  {
    if FractionSum(recipe) != 1.0 {
      return None;
    }
    var allBoxes: set<Box> := {};
    var mainBox: Box := [];
    for k := 0 to |recipe|
      invariant |mainBox| == k
      invariant forall i :: 0 <= i < k ==> mainBox[i] == Species(recipe[i].smiles, MoleculeCount(recipe[i], n))
      invariant allBoxes == PureBoxes(recipe[..k], n)
    {
      mainBox := mainBox + [Species(recipe[k].smiles, MoleculeCount(recipe[k], n))];
      assert recipe[..k + 1] == recipe[..k] + [recipe[k]];
      PureBoxesSnoc(recipe[..k], recipe[k], n);
      allBoxes := allBoxes + {PureBox(recipe[k].smiles, n)};
    }
    assert recipe[..|recipe|] == recipe;
    assert mainBox == UnsortedMainBox(recipe, n);
    mainBox := SortByCount(mainBox);
    allBoxes := allBoxes + {mainBox};
    return Some(allBoxes);
  }

  // ---------------------------------------------------------------------------
  // The whole set (`main`)

  /** The union of the boxes of every recipe, in recipe order. */
  function RecipesBoxes(recipes: seq<Recipe>, n: int): set<Box> {
    if recipes == [] then {}
    else RecipesBoxes(recipes[..|recipes| - 1], n) + RecipeBoxes(recipes[|recipes| - 1], n)
  }

  /** One pure box per solvent of the solvation table. */
  function SolventBoxes(rows: seq<SolvationRow>, n: int): set<Box> {
    set r | r in rows :: PureBox(r.solvent, n)
  }

  /** The box `((solute, 1), (solvent, n - 1))`: the solute first, always with count 1. */
  function SolvationBox(row: SolvationRow, n: int): Box {
    [Species(row.solute, 1), Species(row.solvent, n - 1)]
  }

  function SolvationBoxes(rows: seq<SolvationRow>, n: int): set<Box> {
    set r | r in rows :: SolvationBox(r, n)
  }

  lemma SolventBoxesSnoc(rows: seq<SolvationRow>, r: SolvationRow, n: int)
    ensures SolventBoxes(rows + [r], n) == SolventBoxes(rows, n) + {PureBox(r.solvent, n)}
  {
    assert forall q :: q in rows + [r] <==> q in rows || q == r;
  }

  lemma SolvationBoxesSnoc(rows: seq<SolvationRow>, r: SolvationRow, n: int)
    ensures SolvationBoxes(rows + [r], n) == SolvationBoxes(rows, n) + {SolvationBox(r, n)}
  {
    assert forall q :: q in rows + [r] <==> q in rows || q == r;
  }

  /** The accumulated `all_boxes` set. */
  function AllBoxes(recipes: seq<Recipe>, rows: seq<SolvationRow>, n: int): set<Box> {
    RecipesBoxes(recipes, n) + SolventBoxes(rows, n) + SolvationBoxes(rows, n)
  }

  predicate ValidRecipes(recipes: seq<Recipe>) {
    forall k :: 0 <= k < |recipes| ==> FractionsSumToOne(recipes[k])
  }

  /** Extending a valid prefix by one recipe whose fractions sum to one keeps it valid. */
  lemma ValidRecipesSnoc(recipes: seq<Recipe>, k: nat)
    requires k < |recipes|
    requires ValidRecipes(recipes[..k]) && FractionsSumToOne(recipes[k])
    ensures ValidRecipes(recipes[..k + 1])
  {
    assert recipes[..k + 1] == recipes[..k] + [recipes[k]];
  }

  lemma {:induction false} RecipesBoxesAppend(a: seq<Recipe>, b: seq<Recipe>, n: int)
    ensures RecipesBoxes(a + b, n) == RecipesBoxes(a, n) + RecipesBoxes(b, n)
    decreases |b|
  {
    if b == [] {
      assert a + b == a;
    } else {
      assert (a + b)[..|a + b| - 1] == a + b[..|b| - 1];
      RecipesBoxesAppend(a, b[..|b| - 1], n);
    }
  }

  lemma RecipesBoxesPrefix(recipes: seq<Recipe>, k: nat, n: int)
    requires k < |recipes|
    ensures RecipesBoxes(recipes[..k + 1], n) == RecipesBoxes(recipes[..k], n) + RecipeBoxes(recipes[k], n)
  {
    assert recipes[..k + 1][..k] == recipes[..k];
    assert recipes[..k + 1][k] == recipes[k];
  }

  /** Listing every recipe twice yields the same set: duplicates collapse. */
  lemma DuplicateRecipesCollapse(recipes: seq<Recipe>, rows: seq<SolvationRow>, n: int)
    ensures AllBoxes(recipes + recipes, rows, n) == AllBoxes(recipes, rows, n)
  {
    RecipesBoxesAppend(recipes, recipes, n);
  }

  lemma {:induction false} RecipesBoxesMembers(recipes: seq<Recipe>, n: int, k: nat)
    requires k < |recipes|
    ensures RecipeBoxes(recipes[k], n) <= RecipesBoxes(recipes, n)
    decreases |recipes|
  {
    if k < |recipes| - 1 {
      assert recipes[..|recipes| - 1][k] == recipes[k];
      RecipesBoxesMembers(recipes[..|recipes| - 1], n, k);
    }
  }

  /**
   * The accumulated set holds every recipe's main and pure boxes, a pure box
   * per solvent and a solvation box per row.
   */
  lemma AllBoxesContents(recipes: seq<Recipe>, rows: seq<SolvationRow>, n: int)
    ensures forall k :: 0 <= k < |recipes| ==> MainBox(recipes[k], n) in AllBoxes(recipes, rows, n)
    ensures forall k, c :: 0 <= k < |recipes| && c in recipes[k] ==> PureBox(c.smiles, n) in AllBoxes(recipes, rows, n)
    ensures forall r :: r in rows ==> PureBox(r.solvent, n) in AllBoxes(recipes, rows, n)
    ensures forall r :: r in rows ==> [Species(r.solute, 1), Species(r.solvent, n - 1)] in AllBoxes(recipes, rows, n)
  {
    forall k | 0 <= k < |recipes| {
      RecipesBoxesMembers(recipes, n, k);
    }
  }

  lemma {:induction false} RecipesBoxesNonEmpty(recipes: seq<Recipe>, n: int)
    requires ValidRecipes(recipes)
    ensures forall b :: b in RecipesBoxes(recipes, n) ==> |b| > 0
    decreases |recipes|
  {
    if recipes != [] {
      var last := recipes[|recipes| - 1];
      assert FractionSum(last) == 1.0;
      assert |MainBox(last, n)| == |last| by {
        SortByCountPermutes(UnsortedMainBox(last, n));
        assert |multiset(MainBox(last, n))| == |multiset(UnsortedMainBox(last, n))|;
      }
      RecipesBoxesNonEmpty(recipes[..|recipes| - 1], n);
    }
  }

  /** Every box of a valid run has a first pair, so the final sort key `x[0][1]` exists. */
  lemma AllBoxesNonEmpty(recipes: seq<Recipe>, rows: seq<SolvationRow>, n: int)
    requires ValidRecipes(recipes)
    ensures forall b :: b in AllBoxes(recipes, rows, n) ==> |b| > 0
  {
    RecipesBoxesNonEmpty(recipes, n);
  }

  // ---------------------------------------------------------------------------
  // `sorted(all_boxes, key=lambda x: (len(x), x[0][1], x))`

  /** Python's `<` on the pair tuple `(smiles, count)`. */
  predicate PairLt(p: Species, q: Species) {
    if p.smiles != q.smiles then StrLt(p.smiles, q.smiles) else p.count < q.count
  }

  /** Python's `<` on a tuple of pairs: the first differing pair decides; a proper prefix is smaller. */
  predicate BoxLt(x: Box, y: Box)
    decreases |x|
  {
    if |x| == 0 then |y| > 0
    else if |y| == 0 then false
    else if x[0] != y[0] then PairLt(x[0], y[0])
    else BoxLt(x[1..], y[1..])
  }

  /**
   * Python's `<` on the key `(len(x), x[0][1], x)`. Two empty boxes are equal,
   * so the first count is only consulted for non-empty boxes.
   */
  predicate BoxKeyLt(x: Box, y: Box) {
    if |x| != |y| then |x| < |y|
    else if |x| == 0 then false
    else if x[0].count != y[0].count then x[0].count < y[0].count
    else BoxLt(x, y)
  }

  lemma PairLtIrreflexive(p: Species)
    ensures !PairLt(p, p)
  {
  }

  lemma PairLtTransitive(p: Species, q: Species, s: Species)
    requires PairLt(p, q) && PairLt(q, s)
    ensures PairLt(p, s)
  {
    if p.smiles != q.smiles && q.smiles != s.smiles {
      StrLtTransitive(p.smiles, q.smiles, s.smiles);
      if p.smiles == s.smiles {
        StrLtIrreflexive(p.smiles);
      }
    }
  }

  lemma PairLtTotal(p: Species, q: Species)
    requires p != q
    ensures PairLt(p, q) || PairLt(q, p)
  {
    if p.smiles != q.smiles {
      StrLtTotal(p.smiles, q.smiles);
    }
  }

  lemma {:induction false} BoxLtIrreflexive(x: Box)
    ensures !BoxLt(x, x)
    decreases |x|
  {
    if |x| > 0 {
      BoxLtIrreflexive(x[1..]);
    }
  }

  lemma {:induction false} BoxLtTransitive(x: Box, y: Box, z: Box)
    requires BoxLt(x, y) && BoxLt(y, z)
    ensures BoxLt(x, z)
    decreases |x|
  {
    if |x| > 0 && |y| > 0 && |z| > 0 {
      if x[0] == y[0] && y[0] == z[0] {
        BoxLtTransitive(x[1..], y[1..], z[1..]);
      } else if x[0] != y[0] && y[0] != z[0] {
        PairLtTransitive(x[0], y[0], z[0]);
      }
    }
  }

  lemma {:induction false} BoxLtTotal(x: Box, y: Box)
    requires x != y
    ensures BoxLt(x, y) || BoxLt(y, x)
    decreases |x|
  {
    if |x| > 0 && |y| > 0 {
      if x[0] == y[0] {
        assert x == [x[0]] + x[1..] && y == [y[0]] + y[1..];
        BoxLtTotal(x[1..], y[1..]);
      } else {
        PairLtTotal(x[0], y[0]);
      }
    }
  }

  /** The final sort key orders boxes strictly and totally: the output order is fully determined. */
  lemma BoxKeyLtIsStrictTotalOrder()
    ensures StrictTotalOrder(BoxKeyLt)
  {
    forall x: Box {
      BoxLtIrreflexive(x);
    }
    forall x: Box, y: Box, z: Box | BoxKeyLt(x, y) && BoxKeyLt(y, z)
      ensures BoxKeyLt(x, z)
    {
      if |x| == |y| == |z| && |x| > 0 && x[0].count == y[0].count == z[0].count {
        BoxLtTransitive(x, y, z);
      }
    }
    forall x: Box, y: Box | x != y
      ensures BoxKeyLt(x, y) || BoxKeyLt(y, x)
    {
      BoxLtTotal(x, y);
    }
  }

  // ---------------------------------------------------------------------------
  // Emission

  /** `{"smiles": [c[0] for c in box], "n_molecules": [c[1] for c in box]}`. */
  function ToRecord(b: Box): (r: BoxRecord)
    ensures |r.smiles| == |b| && |r.nMolecules| == |b|
  {
    BoxRecord(seq(|b|, i requires 0 <= i < |b| => b[i].smiles), seq(|b|, i requires 0 <= i < |b| => b[i].count))
  }

  /** Reading a record back: zip its two arrays into pairs. */
  function FromRecord(r: BoxRecord): (b: Box)
    requires |r.smiles| == |r.nMolecules|
    ensures |b| == |r.smiles|
  {
    seq(|r.smiles|, i requires 0 <= i < |r.smiles| => Species(r.smiles[i], r.nMolecules[i]))
  }

  /** Zipping the emitted arrays reproduces the box exactly. */
  lemma RecordRoundTrip(b: Box)
    ensures FromRecord(ToRecord(b)) == b
  {
  }

  /** Every record with aligned arrays is the emission of the box it reads back as. */
  lemma RecordReadBackRoundTrip(r: BoxRecord)
    requires |r.smiles| == |r.nMolecules|
    ensures ToRecord(FromRecord(r)) == r
  {
  }

  /**
   * The emission loop: one record per box, in order; each record's arrays are
   * aligned and zip back to its box.
   */
  method EmitRecords(boxes: seq<Box>) returns (records: seq<BoxRecord>)
    ensures |records| == |boxes|
    ensures forall i :: 0 <= i < |boxes| ==> records[i] == ToRecord(boxes[i])
    ensures forall i :: 0 <= i < |boxes| ==>
              |records[i].smiles| == |records[i].nMolecules| && FromRecord(records[i]) == boxes[i]
  {
    records := [];
    for k := 0 to |boxes|
      invariant |records| == k
      invariant forall i :: 0 <= i < k ==> records[i] == ToRecord(boxes[i])
    {
      RecordRoundTrip(boxes[k]);
      records := records + [ToRecord(boxes[k])];
    }
  }

  /** The first loop of `main`: `all_boxes |= turn_property_into_boxes(entry, n)` for every recipe. */
  method CollectRecipeBoxes(recipes: seq<Recipe>, n: int) returns (r: Option<set<Box>>)
    ensures r.None? <==> !ValidRecipes(recipes)
    ensures r.Some? ==> r.value == RecipesBoxes(recipes, n)
  {
    var allBoxes: set<Box> := {};
    for k := 0 to |recipes|
      invariant ValidRecipes(recipes[..k])
      invariant allBoxes == RecipesBoxes(recipes[..k], n)
    {
      var recipeBoxes := TurnPropertyIntoBoxes(recipes[k], n);
      if recipeBoxes.None? {
        assert !FractionsSumToOne(recipes[k]);
        return None;
      }
      ValidRecipesSnoc(recipes, k);
      RecipesBoxesPrefix(recipes, k, n);
      allBoxes := allBoxes + recipeBoxes.value;
    }
    assert recipes[..|recipes|] == recipes;
    return Some(allBoxes);
  }

  /**
   * The two loops of `main` over the solvation table: a pure box per solvent
   * (`df.Solvent.unique()`, whose repeats would add nothing to a set), then a
   * solvation box per row.
   */
  method AddTableBoxes(allBoxes: set<Box>, rows: seq<SolvationRow>, n: int) returns (r: set<Box>)
    ensures r == allBoxes + SolventBoxes(rows, n) + SolvationBoxes(rows, n)
  {
    r := allBoxes;
    for k := 0 to |rows|
      invariant r == allBoxes + SolventBoxes(rows[..k], n)
    {
      assert rows[..k + 1] == rows[..k] + [rows[k]];
      SolventBoxesSnoc(rows[..k], rows[k], n);
      r := r + {PureBox(rows[k].solvent, n)};
    }
    assert rows[..|rows|] == rows;
    for k := 0 to |rows|
      invariant r == allBoxes + SolventBoxes(rows, n) + SolvationBoxes(rows[..k], n)
    {
      assert rows[..k + 1] == rows[..k] + [rows[k]];
      SolvationBoxesSnoc(rows[..k], rows[k], n);
      r := r + {SolvationBox(rows[k], n)};
    }
  }

  /**
   * The script's `main`: None when some recipe fails the assertion on its
   * fractions; otherwise one record per distinct box, in the order of the
   * final sort key. `boxes` is the sorted list the records are made from.
   */
  method GenerateBoxSpecifications(recipes: seq<Recipe>, rows: seq<SolvationRow>, n: int)
    returns (output: Option<seq<BoxRecord>>, ghost boxes: seq<Box>)
    ensures output.None? <==> !ValidRecipes(recipes)
    ensures output.Some? ==> StrictlyIncreasing(boxes, BoxKeyLt)
    ensures output.Some? ==> forall b :: b in boxes <==> b in AllBoxes(recipes, rows, n)
    ensures output.Some? ==> |output.value| == |boxes|
    ensures output.Some? ==> forall i :: 0 <= i < |boxes| ==>
              |output.value[i].smiles| == |output.value[i].nMolecules| && FromRecord(output.value[i]) == boxes[i]
  {
    boxes := [];
    var recipeBoxes := CollectRecipeBoxes(recipes, n);
    if recipeBoxes.None? {
      return None, boxes;
    }
    var allBoxes := AddTableBoxes(recipeBoxes.value, rows, n);
    BoxKeyLtIsStrictTotalOrder();
    var sorted := SortSet(allBoxes, BoxKeyLt);
    var records := EmitRecords(sorted);
    boxes := sorted;
    output := Some(records);
  }
}
