# Cultivar Labs session model

Cultivar Labs (`app.py`) is a turn-based breeding game. Each script run works
on one session record. The record holds the player's credits, the season
number, the end-of-season overhead, the per-season breed and sale quotas, the
list of bought upgrades, a strain catalogue (name to potency and yield) and a
game-over flag. Every button performs one guarded update of that record:

- end the season: pay the overhead, or go bankrupt;
- buy a shop item not owned yet, if the cash suffices;
- breed two catalogued strains into a named child, if a breed is left and the
  fee of 50 is in hand;
- sell a batch of a catalogued strain, if a sale is left;
- restart after bankruptcy;
- load a save file, which holds credits and the catalogue.

The model has four modules.

- `Rules` (rules.dfy) holds the constants, the child-stat formula and the sale
  price. Money is counted in integer cents and stats in integer tenths. A
  sale is rounded to two decimals and a child's stat to one, so every sale
  price and every bred stat is a whole number in these units. The game keeps
  credits as a binary floating-point number; the model keeps the exact sum in
  cents (see "Left out").
- `Game` (game.dfy) is the session record as a value, `State`. Each button is
  a transition function on it. The lemmas cover single steps and whole action
  sequences (`Step`, `Run`): quotas stay in range, the overhead stays at 50
  per season, upgrades stay unique, credits never go negative and bankruptcy
  is final until a restart.
- `Session` (session.dfy) is the live record as a class. Its fields are updated
  in place by one method per button handler. Each method states every field
  afterwards and is tied to the matching `Game` transition.
- `Store` (store.dfy) is the raw key/value session store. It models the
  start-up loop that fills in every default the store does not hold yet. The
  lemmas show that the loop never resets a game in progress, and that an
  empty store, as after a restart, becomes a new game.

The quota progress bar is `Game.Progress`. Random breeding noise is an input
of the breed operation, bounded to [-1, 2]. The file's default-state literal
puts the upgrades default inside the dictionary (app.py:17-19), which Python
cannot parse. The model reads it as intended: upgrades start empty.

## Model

| member | source | states |
|---|---|---|
| `Rules.ChildStat` | app.py:106-109 | A child stat is never below 1.0. Unless the floor lifted it, it is within half a tenth of the parents' mean plus noise. It is more than the mean minus 1.05 and, unless floored, at most the mean plus 2.05. |
| `Rules.Child` | app.py:105-109 | A bred child is always viable: both stats are at least 1.0. Each stat stays within the noise band around the parents' mean. |
| `Rules.SaleProfit` | app.py:137-138 | A sale is worth exactly potency times 5 times yield, in cents. A viable strain sells for at least 5 credits. |
| `Rules.SelfCrossWithoutNoise` | app.py:105-109 | Crossing a viable strain with itself under zero noise reproduces it. |
| `Rules.ChildStatMonotone` | app.py:106-107 | More noise never gives a smaller child stat. |
| `Game.Progress` | app.py:57 | The quota bar lies in [0, 1]. It is 0 exactly when both quotas are full and 1 exactly when both are used up. |
| `Game.Advance` | app.py:27-38 | With credits of at least the overhead, the overhead is paid, the season rises by 1, the overhead by 50, and the quotas reset to 1 and 4. Otherwise only game over is set. Strains and upgrades never change. |
| `Game.Buy` | app.py:74-83 | An unowned item is bought only with enough credits: exactly its cost is deducted and it is appended. Otherwise nothing changes. The item is owned afterwards exactly when it was owned or affordable. |
| `Game.Breed` | app.py:93-113 | With a breed left and 50 in hand: exactly 50 is deducted, one breed is used, and the child is stored under the new name, overwriting any strain of that name. Every other strain is unchanged. Otherwise nothing changes. |
| `Game.Sell` | app.py:134-144 | With a sale left, credits rise by exactly the strain's sale price and one sale is used. Otherwise nothing changes. The catalogue never changes. |
| `Game.Load` | app.py:182-188 | Loading overwrites credits and strains and nothing else. |
| `Game.AdvanceKeepsValid` | app.py:28-35 | Ending a season keeps quotas in range and the overhead at 50 per season. It never makes credits negative. |
| `Game.BuyKeepsValid` | app.py:74-79 | Buying keeps upgrades free of duplicates and never makes credits negative. |
| `Game.BreedKeepsValid` | app.py:100-109 | Breeding keeps the breed quota in range, never makes credits negative and adds only a viable strain. |
| `Game.SellKeepsValid` | app.py:136-141 | Selling keeps the sale quota in range. A sale of a viable strain adds at least 5 credits. |
| `Game.LoadKeepsConsistent` | app.py:184-187 | Loading keeps quotas, season and upgrades consistent. The state stays solvent exactly when the file's credits are non-negative and its strains viable. |
| `Game.Default` | app.py:6-20 | The default state is valid and not game over. It has no upgrades and exactly the two founder strains, and it shows an empty progress bar. |
| `Game.Offered` | app.py:43-49 | After bankruptcy the restart button is the only control, and before it the restart button is not shown. Buy buttons appear only for unowned items (line 75), breed controls only while a breed is left (line 93), sell controls only while a sale is left (line 134). |
| `Game.Step` | app.py:43-49 | After bankruptcy only the restart button is offered, and it yields exactly the default state. An action not offered changes nothing. |
| `Game.StepKeepsConsistent` | app.py:43-49 | Any single button press keeps the state consistent. It keeps it solvent unless a save file brings debt or a non-viable strain. |
| `Game.RunKeepsConsistent` | app.py:10-11 | Any sequence of presses keeps 0 <= breeds_left <= 1, 0 <= sells_left <= 4, overhead = 50 * season and unique upgrades. The progress bar stays in [0, 1]. |
| `Game.RunKeepsValid` | app.py:29-30 | Without a debt-bringing save file, credits never go negative and every strain keeps stats of at least 1.0. |
| `Game.GameOverIsFinal` | app.py:43-49 | Once bankrupt, no sequence of presses without a restart changes the state. |
| `Game.RunWithoutRestart` | app.py:31-32 | Without a restart the season never decreases. The old upgrade list is a prefix of the new one. |
| `Game.QuotasOnlyShrinkWithinSeason` | app.py:93-102 | Between two season ends the quotas never grow. Season and overhead stay put. |
| `Game.SuccessesBoundedByQuotas` | app.py:134-141 | Between two season ends no more breeds and sales succeed than the quotas left at the start. In a consistent state that is at most one breed and four sales. |
| `Game.CatalogOnlyGrows` | app.py:109 | Without a restart or a save file, no strain name ever leaves the catalogue. |
| `Game.RerunWithUpload` | app.py:182-188 | As written: while a file sits in the uploader, each run that gets past the bankruptcy stop ends with credits and strains equal to the file's. |
| `Game.UploadUndoesSale` | app.py:182-188 | As written: with the founders' save file uploaded, a sale uses up a sale but leaves the credits at the file's value. |
| `Game.UploadUndoesBreed` | app.py:182-188 | As written: with the founders' save file uploaded, a breed uses up the breed, but the fee comes back and the child is gone from the catalogue. |
| `Game.UploadMakesPurchaseFree` | app.py:182-188 | As written: with a 200-credit save file uploaded, buying "LED Lights" keeps the upgrade but puts the credits back at 200, so the purchase is free. |
| `Game.LoadedSaleKeepsProfit` | app.py:182-188 | Corrected: a save file loaded once, then a sale, keeps the file's credits plus the sale's profit. |
| `Session.GameSession.constructor` | app.py:22-24 | A new session holds exactly the default state. |
| `Session.GameSession.Restart` | app.py:45-48 | Restarting a bankrupt session restores exactly the default state. |
| `Session.GameSession.AdvanceSeason` | app.py:27-38 | The method pays exactly when credits >= overhead. It then sets each field as in `Game.Advance`; otherwise it sets only game over. It keeps the invariants, and solvency too. |
| `Session.GameSession.BuyUpgrade` | app.py:74-83 | It buys exactly when credits suffice: the cost is deducted and the item appended. Otherwise nothing changes. Every other field is unchanged. |
| `Session.GameSession.BreedStrain` | app.py:93-113 | It breeds exactly when a breed is left and credits >= 50. It deducts 50, uses a breed and stores the child. Otherwise credits, quota and strains are untouched. |
| `Session.GameSession.SellBatch` | app.py:134-144 | It sells exactly when a sale is left. Credits rise by the sale price and one sale is used. Strains and every other field are unchanged. |
| `Session.GameSession.LoadSave` | app.py:182-188 | Loading sets credits and strains to the file's and leaves every other field as it was. |
| `Session.GameSession.SaveData` | app.py:168-171 | A save file holds the session's current credits and catalogue. |
| `Session.GameSession.Progress` | app.py:57 | The quota bar of a consistent session lies in [0, 1]. It is empty exactly when both quotas are full, and full exactly when both are used up. |
| `Session.SaveThenLoad` | app.py:168-187 | Loading the file just saved leaves the session unchanged. |
| `Store.WithDefaultsSpec` | app.py:22-24 | Filling in defaults adds exactly the missing default keys. Keys already held keep their values. |
| `Store.FillMissing` | app.py:22-24 | The start-up loop computes exactly the store with the defaults filled in. |
| `Store.WithDefaultsIdempotent` | app.py:22-24 | Running the start-up loop twice is the same as running it once, so a rerun never resets a game. |
| `Store.FullStoreUnchanged` | app.py:22-24 | A store that holds every default key is left as it is. |
| `Store.EmptyStoreFills` | app.py:6-24 | From an empty store the loop builds exactly the eight default entries. |
| `Store.EmptyStoreGivesNewGame` | app.py:45-48 | The store a restart empties decodes, after the loop, to exactly the default state. |

## Left out

- Rendering is not modelled: sidebar, metrics, tables, balloons, messages, and `st.rerun`/`st.stop` control flow. The stop after bankruptcy appears only as the rule that no other action is offered (`Game.Offered`, and `!gameOver` on the session methods).
- Random noise is not modelled as randomness. `random.uniform(-1, 2)` becomes two inputs of the breed operation, each in [-1, 2].
- Rules.ChildStat: `round(x, 1)` on a binary float is modelled as exact half-up rounding of a real. Python rounds a float tie to even, but ties have probability zero under continuous noise.
- Floating-point credits are not modelled. Once a sale is credited (app.py:140) the game holds credits as a binary double, and a running sum can drift below the exact cent value: 100 + 81.2 + 82.0 + 161.6 + 25.2 gives 449.99999999999994, not 450. The guards at app.py:29, 77 and 100 can then refuse an action that the exact cents in the model allow. A save file's credits (app.py:186) may be any JSON number, and credits that are not whole cents are not modelled either.
- Save files are not parsed. The JSON encoding and the download and upload widgets are file I/O, so a save file is modelled as its already decoded credits and catalogue. A save file holding stats that are not whole tenths is not modelled.
- Empty catalogues are not modelled. With no strains (possible only after loading such a save file) the parent and sale pickers return nothing and the handlers fail on the lookup. The breed handler has by then already taken the fee and used up the breed (app.py:101-102) when the lookup at app.py:105 fails. The model requires the chosen names to be in the catalogue.
- The unfinished upgrade-aware sell block (app.py:119-133) is not modelled. It reads the sale target before it is bound and never credits its profit, so upgrades have no effect on sales in the model. Its "Sell Batch" button shares its label with the working one at line 136. The clash is a widget-identity rule of the UI framework, which is not modelled.
- The shop items' descriptions and effect tags (app.py:70-71) are not modelled, since no code reads them.

## Findings

| source | as written | input that shows it | evidently intended | confidence | as-written member | corrected member |
|---|---|---|---|---|---|---|
| app.py:182-188 | The uploaded save file is applied on every script run while it stays in the uploader. Each run after a button press overwrites credits and strains with the file's again. | Upload a save of a new game, then sell "Wild Sativa": one sale is used, but the credits go back to 100. Or breed the two founders into "Cross": the breed is used, but the fee of 50 comes back and "Cross" is gone from the catalogue. Or upload a save holding 200 credits and buy "LED Lights": the upgrade stays, but the credits go back to 200. | Load the file once. Later actions keep their effect on credits and strains. | not executed | `Game.UploadUndoesSale`, `Game.UploadUndoesBreed`, `Game.UploadMakesPurchaseFree` | `Game.LoadedSaleKeepsProfit` |
