/** The game's session record as a value, the guarded transitions the
    interface's buttons perform on it, and what whole sequences of button
    presses keep true. */
module Game {
  import opened Rules

  /** One session: money in cents, stats in tenths (see Rules). */
  datatype State = State(
    credits: int,
    season: int,
    overhead: int,
    breedsLeft: int,
    sellsLeft: int,
    upgrades: seq<string>,
    strains: map<string, Strain>,
    gameOver: bool)

  /** The state of a new game and of a restarted one: valid, not over,
      no upgrades, the two founders, and an empty progress bar. */
  function Default(): (d: State)
    ensures Valid(d) && !d.gameOver && d.upgrades == []
    ensures d.strains.Keys == {"Industrial Hemp", "Wild Sativa"}
    ensures Progress(d) == 0.0
  {
    State(StartCredits, 1, StartOverhead, BreedsPerSeason, SellsPerSeason, [], Founders, false)
  }

  predicate NoDuplicates(xs: seq<string>) {
    forall i, j :: 0 <= i < j < |xs| ==> xs[i] != xs[j]
  }

  /** What every operation keeps, loading a save file included: quotas in
      range, the overhead tied to the season, upgrades unique shop items. */
  predicate Consistent(s: State) {
    && 0 <= s.breedsLeft <= BreedsPerSeason
    && 0 <= s.sellsLeft <= SellsPerSeason
    && s.season >= 1
    && s.overhead == OverheadStep * s.season
    && NoDuplicates(s.upgrades)
    && (forall i :: 0 <= i < |s.upgrades| ==> s.upgrades[i] in Shop)
  }

  /** What every operation but loading keeps: no debt, viable strains. */
  predicate Solvent(s: State) {
    && s.credits >= 0
    && (forall n :: n in s.strains ==> Viable(s.strains[n]))
  }

  predicate Valid(s: State) {
    Consistent(s) && Solvent(s)
  }

  /** Quota progress bar: the fraction of this season's five actions used. */
  function Progress(s: State): (r: real)
    requires Consistent(s)
    ensures 0.0 <= r <= 1.0
    ensures r == 0.0 <==> s.breedsLeft == BreedsPerSeason && s.sellsLeft == SellsPerSeason
    ensures r == 1.0 <==> s.breedsLeft == 0 && s.sellsLeft == 0
  {
    (SeasonActions - (s.breedsLeft + s.sellsLeft)) as real / SeasonActions as real
  }

  // ---- the transitions ----

  /** End of season: pay the overhead, or go bankrupt. */
  function Advance(s: State): (t: State)
    ensures t.strains == s.strains && t.upgrades == s.upgrades
    ensures t.gameOver <==> s.gameOver || s.credits < s.overhead
    ensures s.credits >= s.overhead ==>
              t.credits == s.credits - s.overhead && t.season == s.season + 1 &&
              t.overhead == s.overhead + OverheadStep &&
              t.breedsLeft == BreedsPerSeason && t.sellsLeft == SellsPerSeason
    ensures s.credits < s.overhead ==>
              t.credits == s.credits && t.season == s.season && t.overhead == s.overhead &&
              t.breedsLeft == s.breedsLeft && t.sellsLeft == s.sellsLeft
  {
    if s.credits >= s.overhead then
      s.(credits := s.credits - s.overhead, season := s.season + 1,
         overhead := s.overhead + OverheadStep,
         breedsLeft := BreedsPerSeason, sellsLeft := SellsPerSeason)
    else
      s.(gameOver := true)
  }

  /** Buy a shop item: only one not yet owned, and only with enough cash. */
  function Buy(s: State, item: string): (t: State)
    requires item in Shop
    ensures (item !in s.upgrades && s.credits >= Shop[item]) ==>
              t == s.(credits := s.credits - Shop[item], upgrades := s.upgrades + [item])
    ensures !(item !in s.upgrades && s.credits >= Shop[item]) ==> t == s
    ensures item in t.upgrades <==> item in s.upgrades || s.credits >= Shop[item]
  {
    if item !in s.upgrades && s.credits >= Shop[item] then
      s.(credits := s.credits - Shop[item], upgrades := s.upgrades + [item])
    else
      s
  }

  /** Breed two catalogued strains into a child stored under `name`, which
      replaces any strain already of that name; needs a breed left this
      season and the breeding fee. */
  function Breed(s: State, p1: string, p2: string, name: string,
                 potencyNoise: real, yieldNoise: real): (t: State)
    requires p1 in s.strains && p2 in s.strains
    requires -1.0 <= potencyNoise <= 2.0 && -1.0 <= yieldNoise <= 2.0
    ensures t.season == s.season && t.overhead == s.overhead && t.sellsLeft == s.sellsLeft &&
            t.upgrades == s.upgrades && t.gameOver == s.gameOver
    ensures (s.breedsLeft > 0 && s.credits >= BreedCost) ==>
              && t.credits == s.credits - BreedCost
              && t.breedsLeft == s.breedsLeft - 1
              && t.strains.Keys == s.strains.Keys + {name}
              && t.strains[name] == Child(s.strains[p1], s.strains[p2], potencyNoise, yieldNoise)
              && (forall n :: n in s.strains && n != name ==> t.strains[n] == s.strains[n])
    ensures !(s.breedsLeft > 0 && s.credits >= BreedCost) ==> t == s
  {
    if s.breedsLeft > 0 && s.credits >= BreedCost then
      var child := Child(s.strains[p1], s.strains[p2], potencyNoise, yieldNoise);
      s.(credits := s.credits - BreedCost, breedsLeft := s.breedsLeft - 1,
         strains := s.strains[name := child])
    else
      s
  }

  /** Sell one batch of a catalogued strain; needs a sale left this season.
      The strain stays in the catalogue. */
  function Sell(s: State, name: string): (t: State)
    requires name in s.strains
    ensures s.sellsLeft > 0 ==>
              t == s.(credits := s.credits + SaleProfit(s.strains[name]), sellsLeft := s.sellsLeft - 1)
    ensures s.sellsLeft <= 0 ==> t == s
  {
    if s.sellsLeft > 0 then
      s.(credits := s.credits + SaleProfit(s.strains[name]), sellsLeft := s.sellsLeft - 1)
    else
      s
  }

  /** Load a save file: it holds only credits and the strain catalogue. */
  function Load(s: State, credits: int, strains: map<string, Strain>): (t: State)
    ensures t == s.(credits := credits, strains := strains)
  {
    s.(credits := credits, strains := strains)
  }

  // ---- each transition keeps the invariants ----

  lemma AdvanceKeepsValid(s: State)
    requires Valid(s)
    ensures Valid(Advance(s))
  {
  }

  lemma BuyKeepsValid(s: State, item: string)
    requires Valid(s) && item in Shop
    ensures Valid(Buy(s, item))
  {
  }

  lemma BreedKeepsValid(s: State, p1: string, p2: string, name: string, pn: real, yn: real)
    requires Valid(s) && p1 in s.strains && p2 in s.strains
    requires -1.0 <= pn <= 2.0 && -1.0 <= yn <= 2.0
    ensures Valid(Breed(s, p1, p2, name, pn, yn))
  {
  }

  /** A sale of a viable strain always adds at least 5 credits. */
  lemma SellKeepsValid(s: State, name: string)
    requires Valid(s) && name in s.strains
    ensures Valid(Sell(s, name))
    ensures s.sellsLeft > 0 ==> Sell(s, name).credits >= s.credits + 5 * MinStat * MinStat
  {
  }

  lemma LoadKeepsConsistent(s: State, credits: int, strains: map<string, Strain>)
    requires Consistent(s)
    ensures Consistent(Load(s, credits, strains))
    ensures Valid(Load(s, credits, strains)) <==>
              credits >= 0 && forall n :: n in strains ==> Viable(strains[n])
  {
  }

  // ---- sequences of button presses ----

  /** What the interface lets the player do in one script run. */
  datatype Action =
    | EndSeason
    | BuyItem(item: string)
    | BreedStrain(p1: string, p2: string, name: string, potencyNoise: real, yieldNoise: real)
    | SellBatch(name: string)
    | LoadSave(credits: int, strains: map<string, Strain>)
    | RestartGame

  /** Whether the interface shows the control for the action: after
      bankruptcy only the restart button; otherwise the end-season button,
      the buy button of each shop item not owned yet, the breed controls
      while a breed is left (parents from the catalogue, noise from
      [-1, 2]), the sell controls while a sale is left (target from the
      catalogue) and the uploader. */
  predicate Offered(s: State, a: Action)
    ensures Offered(s, a) ==> (s.gameOver <==> a.RestartGame?)
  {
    match a
    case RestartGame => s.gameOver
    case EndSeason => !s.gameOver
    case BuyItem(item) => !s.gameOver && item in Shop && item !in s.upgrades
    case BreedStrain(p1, p2, _, pn, yn) =>
      !s.gameOver && s.breedsLeft > 0 && p1 in s.strains && p2 in s.strains &&
      -1.0 <= pn <= 2.0 && -1.0 <= yn <= 2.0
    case SellBatch(name) => !s.gameOver && s.sellsLeft > 0 && name in s.strains
    case LoadSave(_, _) => !s.gameOver
  }

  /** One script run; an action not offered changes nothing. */
  function Step(s: State, a: Action): (t: State)
    ensures !Offered(s, a) ==> t == s
    ensures a.RestartGame? && Offered(s, a) ==> t == Default()
  {
    if !Offered(s, a) then s
    else
      match a
      case EndSeason => Advance(s)
      case BuyItem(item) => Buy(s, item)
      case BreedStrain(p1, p2, name, pn, yn) => Breed(s, p1, p2, name, pn, yn)
      case SellBatch(name) => Sell(s, name)
      case LoadSave(c, m) => Load(s, c, m)
      case RestartGame => Default()
  }

  function Run(s: State, acts: seq<Action>): (t: State)
    decreases |acts|
  {
    if acts == [] then s else Run(Step(s, acts[0]), acts[1..])
  }

  predicate NoRestart(acts: seq<Action>) {
    forall i :: 0 <= i < |acts| ==> !acts[i].RestartGame?
  }

  /** A save file that would not break solvency. */
  predicate SolventLoad(a: Action) {
    a.LoadSave? ==> a.credits >= 0 && forall n :: n in a.strains ==> Viable(a.strains[n])
  }

  lemma StepKeepsConsistent(s: State, a: Action)
    requires Consistent(s)
    ensures Consistent(Step(s, a))
    ensures SolventLoad(a) && Solvent(s) ==> Solvent(Step(s, a))
  {
  }

  /** Any sequence of button presses keeps the quotas in range, the
      overhead at 50 per season and the upgrades unique. */
  lemma {:induction false} RunKeepsConsistent(s: State, acts: seq<Action>)
    requires Consistent(s)
    ensures Consistent(Run(s, acts))
    ensures Progress(Run(s, acts)) >= 0.0 && Progress(Run(s, acts)) <= 1.0
    decreases |acts|
  {
    if acts != [] {
      StepKeepsConsistent(s, acts[0]);
      RunKeepsConsistent(Step(s, acts[0]), acts[1..]);
    }
  }

  /** Without a save file that brings debt or a non-viable strain, credits
      never go negative and every strain keeps stats of at least 1.0. */
  lemma {:induction false} RunKeepsValid(s: State, acts: seq<Action>)
    requires Valid(s)
    requires forall i :: 0 <= i < |acts| ==> SolventLoad(acts[i])
    ensures Valid(Run(s, acts))
    decreases |acts|
  {
    if acts != [] {
      StepKeepsConsistent(s, acts[0]);
      RunKeepsValid(Step(s, acts[0]), acts[1..]);
    }
  }

  /** Bankruptcy is final until the player restarts. */
  lemma {:induction false} GameOverIsFinal(s: State, acts: seq<Action>)
    requires s.gameOver && NoRestart(acts)
    ensures Run(s, acts) == s
    decreases |acts|
  {
    if acts != [] {
      GameOverIsFinal(Step(s, acts[0]), acts[1..]);
    }
  }

  /** Without a restart, seasons only move forward and owned upgrades are
      never lost: the old upgrade list is a prefix of the new one. */
  lemma {:induction false} RunWithoutRestart(s: State, acts: seq<Action>)
    requires NoRestart(acts)
    ensures Run(s, acts).season >= s.season
    ensures s.upgrades <= Run(s, acts).upgrades
    decreases |acts|
  {
    if acts != [] {
      var t := Step(s, acts[0]);
      assert s.upgrades <= t.upgrades;
      RunWithoutRestart(t, acts[1..]);
    }
  }

  /** No season ends and no game restarts along the sequence. */
  predicate WithinSeason(acts: seq<Action>) {
    forall i :: 0 <= i < |acts| ==> !acts[i].EndSeason? && !acts[i].RestartGame?
  }

  /** Within one season the quotas only shrink, and the season and its
      overhead stay put (SuccessesBoundedByQuotas counts the presses that
      succeed). */
  lemma {:induction false} QuotasOnlyShrinkWithinSeason(s: State, acts: seq<Action>)
    requires WithinSeason(acts)
    ensures Run(s, acts).breedsLeft <= s.breedsLeft
    ensures Run(s, acts).sellsLeft <= s.sellsLeft
    ensures Run(s, acts).season == s.season && Run(s, acts).overhead == s.overhead
    decreases |acts|
  {
    if acts != [] {
      QuotasOnlyShrinkWithinSeason(Step(s, acts[0]), acts[1..]);
    }
  }

  /** How many presses along the sequence bred a strain, counted by the
      breed quota they used up. */
  function Breeds(s: State, acts: seq<Action>): (n: nat)
    decreases |acts|
  {
    if acts == [] then 0
    else
      var t := Step(s, acts[0]);
      (if t.breedsLeft < s.breedsLeft then 1 else 0) + Breeds(t, acts[1..])
  }

  /** How many presses along the sequence sold a batch, counted by the
      sale quota they used up. */
  function Sales(s: State, acts: seq<Action>): (n: nat)
    decreases |acts|
  {
    if acts == [] then 0
    else
      var t := Step(s, acts[0]);
      (if t.sellsLeft < s.sellsLeft then 1 else 0) + Sales(t, acts[1..])
  }

  /** Within one season no more breeds and sales succeed than the quotas
      left at its start: in a consistent state at most one breed and four
      sales. */
  lemma {:induction false} SuccessesBoundedByQuotas(s: State, acts: seq<Action>)
    requires WithinSeason(acts) && s.breedsLeft >= 0 && s.sellsLeft >= 0
    ensures Breeds(s, acts) <= s.breedsLeft
    ensures Sales(s, acts) <= s.sellsLeft
    ensures Consistent(s) ==> Breeds(s, acts) <= BreedsPerSeason && Sales(s, acts) <= SellsPerSeason
    decreases |acts|
  {
    if acts != [] {
      SuccessesBoundedByQuotas(Step(s, acts[0]), acts[1..]);
    }
  }

  /** Unless a save file replaces it, the strain catalogue only grows:
      breeding adds or overwrites a name and nothing removes one. */
  lemma {:induction false} CatalogOnlyGrows(s: State, acts: seq<Action>)
    requires NoRestart(acts)
    requires forall i :: 0 <= i < |acts| ==> !acts[i].LoadSave?
    ensures s.strains.Keys <= Run(s, acts).strains.Keys
    decreases |acts|
  {
    if acts != [] {
      CatalogOnlyGrows(Step(s, acts[0]), acts[1..]);
    }
  }

  // ---- the save file is re-applied on every script run ----

  /** As written: while a save file sits in the uploader, every script
      run that gets past the bankruptcy stop ends by loading it again,
      so the run after any button press overwrites credits and strains
      with the file's. */
  function RerunWithUpload(s: State, a: Action, credits: int, strains: map<string, Strain>): (t: State)
    ensures t.gameOver || (t.credits == credits && t.strains == strains)
  {
    var u := Step(s, a);
    if u.gameOver then u else Load(u, credits, strains)
  }

  /** The as-written load undoes a sale: the sale is used up but the money
      is gone once the script runs again. */
  lemma UploadUndoesSale()
    ensures var s := Load(Default(), StartCredits, Founders);
            var t := RerunWithUpload(s, SellBatch("Wild Sativa"), StartCredits, Founders);
            t.sellsLeft == SellsPerSeason - 1 && t.credits == StartCredits
  {
  }

  /** As written: the load makes a purchase free. The upgrade is kept,
      yet the credits go back to the file's. */
  lemma UploadMakesPurchaseFree()
    ensures var s := Load(Default(), 20000, Founders);
            var t := RerunWithUpload(s, BuyItem("LED Lights"), 20000, Founders);
            t.upgrades == ["LED Lights"] && t.credits == 20000
  {
  }

  /** As written: the load also undoes a breed. The breed is used up, yet
      the fee comes back and the child is gone from the catalogue. */
  lemma UploadUndoesBreed()
    ensures var s := Load(Default(), StartCredits, Founders);
            var t := RerunWithUpload(s, BreedStrain("Industrial Hemp", "Wild Sativa", "Cross", 0.0, 0.0),
                                     StartCredits, Founders);
            t.breedsLeft == 0 && t.credits == StartCredits && "Cross" !in t.strains
  {
  }

  /** The evident intent: a save file is loaded once, and later sales keep
      their profit. */
  lemma {:induction false} LoadedSaleKeepsProfit(s: State, credits: int, strains: map<string, Strain>, name: string)
    requires !s.gameOver && s.sellsLeft > 0 && name in strains
    ensures Run(s, [LoadSave(credits, strains), SellBatch(name)]).credits == credits + SaleProfit(strains[name])
  {
    var u := Step(s, LoadSave(credits, strains));
    assert u == Load(s, credits, strains);
    assert [LoadSave(credits, strains), SellBatch(name)][1..] == [SellBatch(name)];
    assert Run(u, [SellBatch(name)]) == Step(u, SellBatch(name));
  }
}
