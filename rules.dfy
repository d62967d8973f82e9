/** Units, constants and the two arithmetic formulas of Cultivar Labs: the
    stats of a bred child and the price of a sold batch.

    Money is counted in integer cents and strain stats in integer tenths.
    The game prices a sale with `round(..., 2)` and rounds a child's stats
    with `round(..., 1)`, so in these units every sale price and every bred
    stat is a whole number.
    The game itself keeps credits as a binary floating-point number once a
    sale has been credited; the model keeps the exact amount in cents. */
module Rules {

  // ---- money, in cents ----

  /** Credits a new game starts with (100). */
  const StartCredits: int := 10000
  /** End-of-season overhead of season 1 (50). */
  const StartOverhead: int := 5000
  /** How much the overhead grows each season (50). */
  const OverheadStep: int := 5000
  /** Price of one breeding attempt (50). */
  const BreedCost: int := 5000

  // ---- per-season action quotas ----

  const BreedsPerSeason: int := 1
  const SellsPerSeason: int := 4
  /** The constant 5 the quota progress bar divides by. */
  const SeasonActions: int := 5

  // ---- strains, stats in tenths ----

  /** A strain's two stats, each in tenths (a potency of 2 is 20). */
  datatype Strain = Strain(potency: int, yieldAmount: int)

  /** The smallest stat a bred child can get (1.0). */
  const MinStat: int := 10

  /** The two founder strains every new game starts with. */
  const Founders: map<string, Strain> :=
    map["Industrial Hemp" := Strain(20, 100), "Wild Sativa" := Strain(80, 30)]

  /** A strain whose stats are both at least 1.0, as founders and bred
      children always are. */
  predicate Viable(s: Strain) {
    s.potency >= MinStat && s.yieldAmount >= MinStat
  }

  // ---- the equipment shop ----

  /** Shop items and their prices in cents. */
  const Shop: map<string, int> := map["LED Lights" := 15000, "Hydro System" := 25000]

  // ---- formulas ----

  function Max(a: int, b: int): (m: int) {
    if a >= b then a else b
  }

  /** The integer nearest to x, ties rounded up. */
  function RoundHalfUp(x: real): (r: int)
    ensures x - 0.5 < r as real <= x + 0.5
  {
    (x + 0.5).Floor
  }

  /** The unrounded value of one child stat, in tenths: the parents' mean
      plus the noise, which is drawn in whole stat units and so is scaled
      by ten. */
  function ExactChildStat(a: int, b: int, noise: real): (x: real) {
    (a + b) as real / 2.0 + 10.0 * noise
  }

  /** One stat of a bred child, in tenths: the parents' mean plus noise
      drawn from [-1, 2], rounded to a tenth and floored at 1.0. The result
      is never below 1.0, is off the unrounded value by at most half a
      tenth unless the floor lifted it, and so never exceeds the parents'
      mean by more than 2.05 nor falls below it by 1.05 or more. */
  function ChildStat(a: int, b: int, noise: real): (r: int)
    requires -1.0 <= noise <= 2.0
    ensures r >= MinStat
    ensures r == MinStat || ExactChildStat(a, b, noise) - 0.5 < r as real <= ExactChildStat(a, b, noise) + 0.5
    ensures ExactChildStat(a, b, noise) >= MinStat as real ==>
              ExactChildStat(a, b, noise) - 0.5 < r as real <= ExactChildStat(a, b, noise) + 0.5
    ensures a + b - 21 < 2 * r
    ensures r == MinStat || 2 * r <= a + b + 41
  {
    Max(MinStat, RoundHalfUp(ExactChildStat(a, b, noise)))
  }

  /** The child of two strains, given the noise drawn for its potency and
      for its yield. */
  function Child(p1: Strain, p2: Strain, potencyNoise: real, yieldNoise: real): (c: Strain)
    requires -1.0 <= potencyNoise <= 2.0 && -1.0 <= yieldNoise <= 2.0
    ensures Viable(c)
    ensures p1.potency + p2.potency - 21 < 2 * c.potency
    ensures p1.yieldAmount + p2.yieldAmount - 21 < 2 * c.yieldAmount
    ensures Viable(p1) && Viable(p2) ==>
              2 * c.potency <= p1.potency + p2.potency + 41 &&
              2 * c.yieldAmount <= p1.yieldAmount + p2.yieldAmount + 41
  {
    Strain(ChildStat(p1.potency, p2.potency, potencyNoise),
           ChildStat(p1.yieldAmount, p2.yieldAmount, yieldNoise))
  }

  /** The price of selling one batch of a strain, in cents: potency times 5
      times yield, in credits. The price is exact in cents, and a viable
      strain always sells for at least 5 credits. */
  function SaleProfit(s: Strain): (r: int)
    ensures r as real == 100.0 * ((s.potency as real / 10.0) * 5.0 * (s.yieldAmount as real / 10.0))
    ensures Viable(s) ==> r >= 5 * MinStat * MinStat
  {
    ProductAtLeast(s.potency, s.yieldAmount, MinStat);
    s.potency * 5 * s.yieldAmount
  }

  lemma ProductAtLeast(a: int, b: int, m: nat)
    ensures a >= m && b >= m ==> a * b >= m * m
  {
    if a >= m && b >= m {
      assert a * b >= m * b;
      assert m * b >= m * m;
    }
  }

  /** Breeding a strain with itself with no noise reproduces it. */
  lemma SelfCrossWithoutNoise(s: Strain)
    requires Viable(s)
    ensures Child(s, s, 0.0, 0.0) == s
  {
  }

  /** More noise never gives a smaller stat. */
  lemma ChildStatMonotone(a: int, b: int, n1: real, n2: real)
    requires -1.0 <= n1 <= n2 <= 2.0
    ensures ChildStat(a, b, n1) <= ChildStat(a, b, n2)
  {
  }
}
