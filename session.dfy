/** The live session record the interface's buttons update in place. Each
    method performs one button handler's field updates, says what every
    field is afterwards, and is tied to the value-level transition of the
    Game module that the lemmas there are about. */
module Session {
  import opened Rules
  import Game

  class GameSession {
    var credits: int
    var season: int
    var overhead: int
    var breedsLeft: int
    var sellsLeft: int
    var upgrades: seq<string>
    var strains: map<string, Strain>
    var gameOver: bool

    /** The record as a value. */
    function State(): Game.State
      reads this
    {
      Game.State(credits, season, overhead, breedsLeft, sellsLeft, upgrades, strains, gameOver)
    }

    predicate Valid()
      reads this
    {
      Game.Consistent(State())
    }

    predicate Solvent()
      reads this
    {
      Game.Solvent(State())
    }

    /** A new session: every default filled in. */
    constructor ()
      ensures Valid() && Solvent() && !gameOver
      ensures State() == Game.Default()
    {
      var d := Game.Default();
      credits, season, overhead := d.credits, d.season, d.overhead;
      breedsLeft, sellsLeft := d.breedsLeft, d.sellsLeft;
      upgrades, strains, gameOver := d.upgrades, d.strains, d.gameOver;
    }

    /** The restart button, offered only after bankruptcy: the session is
        cleared and filled in with the defaults again. */
    method Restart()
      requires gameOver
      modifies this
      ensures Valid() && Solvent() && !gameOver
      ensures State() == Game.Default()
    {
      var d := Game.Default();
      credits, season, overhead := d.credits, d.season, d.overhead;
      breedsLeft, sellsLeft := d.breedsLeft, d.sellsLeft;
      upgrades, strains, gameOver := d.upgrades, d.strains, d.gameOver;
    }

    /** End the season (complete or early): pay the overhead and reset the
        quotas, or go bankrupt with nothing else changed. */
    method AdvanceSeason() returns (paid: bool)
      requires Valid() && !gameOver
      modifies this
      ensures Valid() && (old(Solvent()) ==> Solvent())
      ensures paid == (old(credits) >= old(overhead))
      ensures paid ==>
                && credits == old(credits) - old(overhead)
                && season == old(season) + 1
                && overhead == old(overhead) + OverheadStep
                && breedsLeft == BreedsPerSeason && sellsLeft == SellsPerSeason
                && !gameOver
      ensures !paid ==>
                && gameOver
                && credits == old(credits) && season == old(season) && overhead == old(overhead)
                && breedsLeft == old(breedsLeft) && sellsLeft == old(sellsLeft)
      ensures upgrades == old(upgrades) && strains == old(strains)
      ensures State() == Game.Advance(old(State()))
    {
      var cost := overhead;
      if credits >= cost {
        credits := credits - cost;
        season := season + 1;
        overhead := overhead + OverheadStep;
        breedsLeft := BreedsPerSeason;
        sellsLeft := SellsPerSeason;
        paid := true;
      } else {
        gameOver := true;
        paid := false;
      }
    }

    /** The shop button of an item not yet owned: pay for it and append it
        to the upgrades, or change nothing when cash is short. */
    method BuyUpgrade(item: string) returns (bought: bool)
      requires Valid() && !gameOver
      requires item in Shop && item !in upgrades
      modifies this
      ensures Valid() && (old(Solvent()) ==> Solvent())
      ensures bought == (old(credits) >= Shop[item])
      ensures bought ==> credits == old(credits) - Shop[item] && upgrades == old(upgrades) + [item]
      ensures !bought ==> credits == old(credits) && upgrades == old(upgrades)
      ensures season == old(season) && overhead == old(overhead) && breedsLeft == old(breedsLeft)
      ensures sellsLeft == old(sellsLeft) && strains == old(strains) && gameOver == old(gameOver)
      ensures State() == Game.Buy(old(State()), item)
    {
      bought := credits >= Shop[item];
      if bought {
        credits := credits - Shop[item];
        upgrades := upgrades + [item];
      }
    }

    /** The breed button: with a breed left and the fee in hand, pay the fee,
        use the breed and store the child of p1 and p2 under newName. */
    method BreedStrain(p1: string, p2: string, newName: string, potencyNoise: real, yieldNoise: real)
      returns (bred: bool)
      requires Valid() && !gameOver
      requires p1 in strains && p2 in strains
      requires -1.0 <= potencyNoise <= 2.0 && -1.0 <= yieldNoise <= 2.0
      modifies this
      ensures Valid() && (old(Solvent()) ==> Solvent())
      ensures bred == (old(breedsLeft) > 0 && old(credits) >= BreedCost)
      ensures bred ==>
                && credits == old(credits) - BreedCost
                && breedsLeft == old(breedsLeft) - 1
                && strains == old(strains)[newName := Child(old(strains)[p1], old(strains)[p2], potencyNoise, yieldNoise)]
      ensures !bred ==> credits == old(credits) && breedsLeft == old(breedsLeft) && strains == old(strains)
      ensures season == old(season) && overhead == old(overhead) && sellsLeft == old(sellsLeft)
      ensures upgrades == old(upgrades) && gameOver == old(gameOver)
      ensures State() == Game.Breed(old(State()), p1, p2, newName, potencyNoise, yieldNoise)
    {
      bred := false;
      if breedsLeft > 0 {
        if credits >= BreedCost {
          credits := credits - BreedCost;
          breedsLeft := breedsLeft - 1;
          var s1, s2 := strains[p1], strains[p2];
          strains := strains[newName := Child(s1, s2, potencyNoise, yieldNoise)];
          bred := true;
        }
      }
    }

    /** The sell button: with a sale left, credit potency times 5 times yield
        of the chosen strain and use the sale. */
    method SellBatch(target: string) returns (sold: bool)
      requires Valid() && !gameOver
      requires target in strains
      modifies this
      ensures Valid() && (old(Solvent()) ==> Solvent())
      ensures sold == (old(sellsLeft) > 0)
      ensures sold ==> credits == old(credits) + SaleProfit(old(strains)[target]) && sellsLeft == old(sellsLeft) - 1
      ensures !sold ==> credits == old(credits) && sellsLeft == old(sellsLeft)
      ensures season == old(season) && overhead == old(overhead) && breedsLeft == old(breedsLeft)
      ensures upgrades == old(upgrades) && strains == old(strains) && gameOver == old(gameOver)
      ensures State() == Game.Sell(old(State()), target)
    {
      sold := sellsLeft > 0;
      if sold {
        var profit := SaleProfit(strains[target]);
        credits := credits + profit;
        sellsLeft := sellsLeft - 1;
      }
    }

    /** Load a save file's credits and strain catalogue; nothing else. */
    method LoadSave(savedCredits: int, savedStrains: map<string, Strain>)
      requires Valid() && !gameOver
      modifies this
      ensures Valid()
      ensures credits == savedCredits && strains == savedStrains
      ensures season == old(season) && overhead == old(overhead) && breedsLeft == old(breedsLeft)
      ensures sellsLeft == old(sellsLeft) && upgrades == old(upgrades) && gameOver == old(gameOver)
      ensures State() == Game.Load(old(State()), savedCredits, savedStrains)
    {
      credits := savedCredits;
      strains := savedStrains;
    }

    /** What a save file holds. */
    method SaveData() returns (savedCredits: int, savedStrains: map<string, Strain>)
      ensures savedCredits == credits && savedStrains == strains
    {
      savedCredits, savedStrains := credits, strains;
    }

    /** The quota progress bar's value. */
    function Progress(): (r: real)
      reads this
      requires Valid()
      ensures 0.0 <= r <= 1.0
      ensures r == 0.0 <==> breedsLeft == BreedsPerSeason && sellsLeft == SellsPerSeason
      ensures r == 1.0 <==> breedsLeft == 0 && sellsLeft == 0
    {
      Game.Progress(State())
    }
  }

  /** Loading what was just saved changes nothing. */
  method SaveThenLoad(g: GameSession)
    requires g.Valid() && !g.gameOver
    modifies g
    ensures g.State() == old(g.State())
  {
    var c, m := g.SaveData();
    g.LoadSave(c, m);
  }
}
