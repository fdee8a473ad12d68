/** Construction of the hyperparameter grid and its expansion into the
    ordered list of candidate configurations (the cartesian product of the
    grid's six option lists, last list varying fastest). */
module Grid {

  /** Trend model offered by the growth selector. */
  datatype Growth = Linear | Logistic

  /** A seasonality selector holds one of the values False, True or "auto". */
  datatype Seasonality = Off | On | Auto

  /** Truth value of a seasonality setting in a condition: only False is
      falsy, the non-empty string "auto" is truthy. */
  predicate Truthy(s: Seasonality) {
    s != Off
  }

  /** One candidate: the keyword arguments handed to the forecaster. */
  datatype Config = Config(
    growth: Growth,
    dailySeasonality: Seasonality,
    weeklySeasonality: Seasonality,
    yearlySeasonality: Seasonality,
    changepointPriorScale: real,
    seasonalityPriorScale: real)

  /** The grid: one list of options per keyword argument, in key order. */
  datatype ParamGrid = ParamGrid(
    growth: seq<Growth>,
    dailySeasonality: seq<Seasonality>,
    weeklySeasonality: seq<Seasonality>,
    yearlySeasonality: seq<Seasonality>,
    changepointPriorScale: seq<real>,
    seasonalityPriorScale: seq<real>)

  /** True if no value occurs twice in `xs`. */
  predicate Distinct(xs: seq<real>) {
    forall i, j :: 0 <= i < |xs| && 0 <= j < |xs| && i != j ==> xs[i] != xs[j]
  }

  /** The fixed options for the changepoint flexibility. */
  const ChangepointScales: seq<real> := [0.5, 1.0, 5.0, 10.0]

  /** The fixed options for the seasonality flexibility. */
  const SeasonalityScales: seq<real> := [5.0, 10.0, 15.0, 20.0]

  /** Holds the four structural settings fixed and pairs them with the two
      numeric option lists. */
  function CreateParamGrid(growth: Growth, daily: Seasonality, weekly: Seasonality,
                           yearly: Seasonality): (g: ParamGrid)
    ensures g.growth == [growth] && g.dailySeasonality == [daily]
    ensures g.weeklySeasonality == [weekly] && g.yearlySeasonality == [yearly]
    ensures g.changepointPriorScale == [0.5, 1.0, 5.0, 10.0] && Distinct(g.changepointPriorScale)
    ensures g.seasonalityPriorScale == [5.0, 10.0, 15.0, 20.0] && Distinct(g.seasonalityPriorScale)
  {
    ParamGrid([growth], [daily], [weekly], [yearly], ChangepointScales, SeasonalityScales)
  }

  /** Concatenation of `f(x)` over `xs`, in order: one level of a cartesian
      product. */
  function FlatMap<A, B>(xs: seq<A>, f: A -> seq<B>): seq<B> {
    if xs == [] then [] else f(xs[0]) + FlatMap(xs[1..], f)
  }

  /** The inner loop of the product for fixed structural values and a fixed
      changepoint scale: one configuration per seasonality scale. */
  function SeasonalityRow(gr: Growth, d: Seasonality, w: Seasonality, y: Seasonality,
                          c: real, ss: seq<real>): seq<Config> {
    FlatMap(ss, s => [Config(gr, d, w, y, c, s)])
  }

  /** The cartesian product of the grid's lists, the first list outermost
      and the last list innermost, each tuple zipped with the grid's keys. */
  function AllParams(g: ParamGrid): seq<Config> {
    FlatMap(g.growth, gr =>
      FlatMap(g.dailySeasonality, d =>
        FlatMap(g.weeklySeasonality, w =>
          FlatMap(g.yearlySeasonality, y =>
            FlatMap(g.changepointPriorScale, c =>
              SeasonalityRow(gr, d, w, y, c, g.seasonalityPriorScale))))))
  }

  /** Start of block `i` in a layout of blocks of length `k`, counted
      block by block. */
  function BlockStart(i: nat, k: nat): nat {
    if i == 0 then 0 else BlockStart(i - 1, k) + k
  }

  /** Counting blocks one by one agrees with multiplication. */
  lemma {:induction false} BlockStartIsProduct(i: nat, k: nat)
    ensures BlockStart(i, k) == i * k
  {
    if i > 0 {
      BlockStartIsProduct(i - 1, k);
      assert (i - 1) * k + k == i * k;
    }
  }

  /** When every `f(x)` has length `k`, the flattened list has `|xs| * k`
      entries. */
  lemma {:induction false} FlatMapLength<A, B>(xs: seq<A>, f: A -> seq<B>, k: nat)
    requires forall x :: x in xs ==> |f(x)| == k
    ensures |FlatMap(xs, f)| == BlockStart(|xs|, k)
  {
    if xs != [] {
      assert forall x :: x in xs[1..] ==> x in xs;
      FlatMapLength(xs[1..], f, k);
    }
  }

  /** When every `f(x)` has length `k`, entry `j` of block `i` of the
      flattened list is entry `j` of `f(xs[i])`. */
  lemma {:induction false} FlatMapAt<A, B>(xs: seq<A>, f: A -> seq<B>, k: nat, i: nat, j: nat)
    requires forall x :: x in xs ==> |f(x)| == k
    requires i < |xs| && j < k
    ensures BlockStart(i, k) + j < |FlatMap(xs, f)|
    ensures FlatMap(xs, f)[BlockStart(i, k) + j] == f(xs[i])[j]
  {
    assert forall x :: x in xs[1..] ==> x in xs;
    FlatMapLength(xs[1..], f, k);
    if i > 0 {
      FlatMapAt(xs[1..], f, k, i - 1, j);
    }
  }

  /** A flattening over a one-element list is that element's image. */
  lemma FlatMapSingleton<A, B>(x: A, f: A -> seq<B>)
    ensures FlatMap([x], f) == f(x)
  {
    assert [x][1..] == [];
  }

  /** Entry `j` of the inner loop pairs the changepoint scale with
      seasonality scale `j`. */
  lemma SeasonalityRowAt(gr: Growth, d: Seasonality, w: Seasonality, y: Seasonality,
                         c: real, ss: seq<real>, j: nat)
    requires j < |ss|
    ensures |SeasonalityRow(gr, d, w, y, c, ss)| == |ss|
    ensures SeasonalityRow(gr, d, w, y, c, ss)[j] == Config(gr, d, w, y, c, ss[j])
  {
    FlatMapLength(ss, s => [Config(gr, d, w, y, c, s)], 1);
    BlockStartIsProduct(|ss|, 1);
    FlatMapAt(ss, s => [Config(gr, d, w, y, c, s)], 1, j, 0);
    BlockStartIsProduct(j, 1);
  }

  /** With the four structural lists fixed to one value each, the product
      reduces to the two numeric lists, changepoint outermost. */
  lemma ExpandFixedStructure(g: ParamGrid)
    requires |g.growth| == 1 && |g.dailySeasonality| == 1
    requires |g.weeklySeasonality| == 1 && |g.yearlySeasonality| == 1
    ensures AllParams(g) == FlatMap(g.changepointPriorScale, c =>
      SeasonalityRow(g.growth[0], g.dailySeasonality[0], g.weeklySeasonality[0], g.yearlySeasonality[0],
                     c, g.seasonalityPriorScale))
  {
    var gr, d, w, y := g.growth[0], g.dailySeasonality[0], g.weeklySeasonality[0], g.yearlySeasonality[0];
    var cs, ss := g.changepointPriorScale, g.seasonalityPriorScale;
    assert g.growth == [gr] && g.dailySeasonality == [d];
    assert g.weeklySeasonality == [w] && g.yearlySeasonality == [y];
    FlatMapSingleton(y, y' => FlatMap(cs, c => SeasonalityRow(gr, d, w, y', c, ss)));
    FlatMapSingleton(w, w' => FlatMap([y], y' => FlatMap(cs, c => SeasonalityRow(gr, d, w', y', c, ss))));
    FlatMapSingleton(d, d' => FlatMap([w], w' => FlatMap([y], y' => FlatMap(cs, c => SeasonalityRow(gr, d', w', y', c, ss)))));
    FlatMapSingleton(gr, gr' => FlatMap([d], d' => FlatMap([w], w' => FlatMap([y], y' => FlatMap(cs, c => SeasonalityRow(gr', d', w', y', c, ss))))));
  }

  /** A grid whose four structural lists each hold one value expands to
      `m * n` configurations for `m` changepoint and `n` seasonality options;
      the configuration at `i * n + j` (written `BlockStart(i, n) + j`)
      pairs changepoint option `i` (outer loop) with seasonality option `j`
      (inner loop) and keeps the structural values. */
  lemma ExpandAt(g: ParamGrid, i: nat, j: nat)
    requires |g.growth| == 1 && |g.dailySeasonality| == 1
    requires |g.weeklySeasonality| == 1 && |g.yearlySeasonality| == 1
    requires i < |g.changepointPriorScale| && j < |g.seasonalityPriorScale|
    ensures |AllParams(g)| == BlockStart(|g.changepointPriorScale|, |g.seasonalityPriorScale|)
    ensures BlockStart(i, |g.seasonalityPriorScale|) + j < |AllParams(g)|
    ensures AllParams(g)[BlockStart(i, |g.seasonalityPriorScale|) + j]
      == Config(g.growth[0], g.dailySeasonality[0], g.weeklySeasonality[0],
                g.yearlySeasonality[0], g.changepointPriorScale[i], g.seasonalityPriorScale[j])
  {
    var gr, d, w, y := g.growth[0], g.dailySeasonality[0], g.weeklySeasonality[0], g.yearlySeasonality[0];
    var cs, ss := g.changepointPriorScale, g.seasonalityPriorScale;
    var inner := c => SeasonalityRow(g.growth[0], g.dailySeasonality[0], g.weeklySeasonality[0],
                                     g.yearlySeasonality[0], c, g.seasonalityPriorScale);
    forall c: real ensures |inner(c)| == |ss| {
      SeasonalityRowAt(gr, d, w, y, c, ss, j);
    }
    ExpandFixedStructure(g);
    FlatMapLength(cs, inner, |ss|);
    FlatMapAt(cs, inner, |ss|, i, j);
    SeasonalityRowAt(gr, d, w, y, cs[i], ss, j);
  }

  /** A grid of one structural value each and four options in each numeric
      list expands to 16 configurations, changepoint option `p / 4` paired
      with seasonality option `p % 4` at position `p`. */
  lemma ExpandFourByFour(g: ParamGrid, p: nat)
    requires |g.growth| == 1 && |g.dailySeasonality| == 1
    requires |g.weeklySeasonality| == 1 && |g.yearlySeasonality| == 1
    requires |g.changepointPriorScale| == 4 && |g.seasonalityPriorScale| == 4
    requires p < 16
    ensures |AllParams(g)| == 16
    ensures AllParams(g)[p] == Config(g.growth[0], g.dailySeasonality[0], g.weeklySeasonality[0],
                                      g.yearlySeasonality[0], g.changepointPriorScale[p / 4],
                                      g.seasonalityPriorScale[p % 4])
  {
    ExpandAt(g, p / 4, p % 4);
    BlockStartIsProduct(4, 4);
    BlockStartIsProduct(p / 4, 4);
  }

  /** Configuration `p` of the Validate grid. */
  lemma GridAt(growth: Growth, daily: Seasonality, weekly: Seasonality, yearly: Seasonality, p: nat)
    requires p < 16
    ensures |AllParams(CreateParamGrid(growth, daily, weekly, yearly))| == 16
    ensures AllParams(CreateParamGrid(growth, daily, weekly, yearly))[p]
      == Config(growth, daily, weekly, yearly, ChangepointScales[p / 4], SeasonalityScales[p % 4])
  {
    ExpandFourByFour(CreateParamGrid(growth, daily, weekly, yearly), p);
  }

  /** The grid built for the Validate action has 4 x 4 = 16 configurations;
      configuration `p` carries the four structural values passed in, the
      changepoint scale `[0.5, 1, 5, 10][p / 4]` and the seasonality scale
      `[5, 10, 15, 20][p % 4]`. */
  lemma GridExpansion(growth: Growth, daily: Seasonality, weekly: Seasonality, yearly: Seasonality)
    ensures |AllParams(CreateParamGrid(growth, daily, weekly, yearly))| == 16
    ensures forall p :: 0 <= p < 16 ==>
      AllParams(CreateParamGrid(growth, daily, weekly, yearly))[p]
        == Config(growth, daily, weekly, yearly, ChangepointScales[p / 4], SeasonalityScales[p % 4])
  {
    GridAt(growth, daily, weekly, yearly, 0);
    forall p | 0 <= p < 16
      ensures AllParams(CreateParamGrid(growth, daily, weekly, yearly))[p]
        == Config(growth, daily, weekly, yearly, ChangepointScales[p / 4], SeasonalityScales[p % 4])
    {
      GridAt(growth, daily, weekly, yearly, p);
    }
  }

  /** Two positions of a 4 x 4 layout that differ differ in block or in
      offset. */
  lemma BlockOffsetInjective(p: int, q: int)
    requires 0 <= p < 16 && 0 <= q < 16 && p != q
    ensures p / 4 != q / 4 || p % 4 != q % 4
  {
  }

  /** A 4 x 4 grid whose numeric lists hold no value twice expands to 16
      pairwise different configurations. */
  lemma ExpandFourByFourDistinct(g: ParamGrid, p: nat, q: nat)
    requires |g.growth| == 1 && |g.dailySeasonality| == 1
    requires |g.weeklySeasonality| == 1 && |g.yearlySeasonality| == 1
    requires |g.changepointPriorScale| == 4 && |g.seasonalityPriorScale| == 4
    requires Distinct(g.changepointPriorScale) && Distinct(g.seasonalityPriorScale)
    requires p < 16 && q < 16 && p != q
    ensures |AllParams(g)| == 16 && AllParams(g)[p] != AllParams(g)[q]
  {
    ExpandFourByFour(g, p);
    ExpandFourByFour(g, q);
    BlockOffsetInjective(p, q);
  }

  /** No configuration of the Validate grid occurs twice. */
  lemma GridDistinct(growth: Growth, daily: Seasonality, weekly: Seasonality, yearly: Seasonality)
    ensures |AllParams(CreateParamGrid(growth, daily, weekly, yearly))| == 16
    ensures forall p, q :: 0 <= p < 16 && 0 <= q < 16 && p != q ==>
      AllParams(CreateParamGrid(growth, daily, weekly, yearly))[p]
        != AllParams(CreateParamGrid(growth, daily, weekly, yearly))[q]
  {
    var g := CreateParamGrid(growth, daily, weekly, yearly);
    ExpandFourByFour(g, 0);
    forall p, q | 0 <= p < 16 && 0 <= q < 16 && p != q ensures AllParams(g)[p] != AllParams(g)[q] {
      ExpandFourByFourDistinct(g, p, q);
    }
  }

  /** The candidate list of the Validate action, written out: 16
      configurations carrying the four structural settings, with the
      changepoint scale as outer loop and the seasonality scale as inner
      loop. */
  function ValidationGrid(growth: Growth, daily: Seasonality, weekly: Seasonality, yearly: Seasonality): seq<Config> {
    seq(16, p requires 0 <= p < 16 =>
      Config(growth, daily, weekly, yearly, ChangepointScales[p / 4], SeasonalityScales[p % 4]))
  }

  /** Expanding the grid built for the Validate action yields exactly the
      written-out Validate grid. */
  lemma ProductIsValidationGrid(growth: Growth, daily: Seasonality, weekly: Seasonality, yearly: Seasonality)
    ensures AllParams(CreateParamGrid(growth, daily, weekly, yearly)) == ValidationGrid(growth, daily, weekly, yearly)
  {
    var all := AllParams(CreateParamGrid(growth, daily, weekly, yearly));
    var written := ValidationGrid(growth, daily, weekly, yearly);
    GridExpansion(growth, daily, weekly, yearly);
    assert |all| == |written|;
    forall p | 0 <= p < 16 ensures all[p] == written[p] {
    }
  }

  /** Builds the grid from the four structural settings and expands it into
      the list of candidate configurations; the result is the written-out
      Validate grid. */
  method ExpandGrid(growth: Growth, daily: Seasonality, weekly: Seasonality, yearly: Seasonality)
    returns (allParams: seq<Config>)
    ensures |allParams| == 16
    ensures allParams == ValidationGrid(growth, daily, weekly, yearly)
  {
    var paramGrid := CreateParamGrid(growth, daily, weekly, yearly);
    allParams := AllParams(paramGrid);
    ProductIsValidationGrid(growth, daily, weekly, yearly);
  }
}
