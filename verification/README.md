# Lottery draw and settlement, modelled in Dafny

This project models the core of SimpleLotteryGame. The game is a console lottery:

- Players buy tickets with their balance.
- A draw picks winners across ordered prize tiers from a pool that shrinks tier by tier.
- Each tier pays its percentage of the ticket revenue, split per winning ticket and rounded to cents.
- The house keeps what is left.
- The winnings are summed per player and credited to balances. The house's share is added to the game instance.

The model is split into modules:

| file | module | models |
|---|---|---|
| `common.dfy` | `Common` | optional values, results and one error per exception the core throws |
| `entities.dfy`, `models.dfy` | `Entities`, `Models` | tickets, players, game instances, the configuration, tier and draw results |
| `sequences.dfy` | `Sequences` | the LINQ operators the core uses: `Take`, `Except` and first-occurrence `Distinct` |
| `money.dfy` | `Money` | cents rounding (halves away from zero) and integer rounding (halves to even) on exact reals |
| `tier_prizes.dfy` | `TierPrizes` | the tier variants and the shuffle-then-take primitive |
| `game_engine.dfy` | `GameEngine` | the engine's guards and the imperative tier loop of `DrawWinners` |
| `draw_facts.dfy` | `DrawFacts` | what a draw guarantees |
| `game_db.dfy` | `GameDatabase` | a class standing for the database context: tracked entities plus the state the last save wrote |
| `player_manager.dfy` | `PlayerService` | `PlayerManager` as a class over the context |
| `ticket_manager.dfy` | `TicketService` | `TicketManager` as a class over the context |
| `credits.dfy` | `Credits` | the per-player grouping of a draw's winnings |
| `game_manager.dfy` | `GameService` | the game manager's house-revenue and balance updates |

## Modelling choices

- **Money.** Money is an exact Dafny `real`. `Math.Round(x, 2, MidpointRounding.AwayFromZero)` is written out as `Money.RoundCents`. The winner counts `Math.Round(n * 0.10)` and `Math.Round(n * 0.20)` are exact rationals rounded half to even (`Money.RoundHalfEven`), which is `Math.Round`'s default.
- **Randomness.** `OrderBy(random.Next())` is a parameter `shuffle` that may return any permutation of the pool. The engine passes the tier's position, so each tier may shuffle differently. `TierPrizes.SelectionIsShuffledPrefix` shows that no outcome of the random pick is lost: every selection of the right size is some shuffle's result.
- **Tier results.** They are kept as a sequence of entries keyed by the tier's position in the engine's list, in the order the tiers ran. The source keys them by tier object.
- **Identity.** A ticket's `id` stands for its object identity. Two tickets are the same ticket exactly when they are equal values. The ticket and player ids come from counters in the context.
- **The database context** (`GameDatabase.GameDb`) tracks entities in memory and keeps the last saved state apart. This lets the model state that `UpdatePlayerBalance` changes the balance in memory before it checks it. A refused update is therefore not saved, but the next save of the same context writes it.
- **Concurrent calls.** `Task.WhenAll` over the per-player balance updates becomes a loop in player order. Every update is attempted, and the first refusal's error is what the caller sees.
- **Where the program's documentation and its code differ, the code is followed.** The engine's test documentation (`LotteryGame.Tests/UnitTests/Game/GameEngineTests.cs`, lines 83-86) says the closest equal split is paid and any remainder goes to the house. Rounding halves away from zero can instead pay out more than the revenue, which leaves the house below zero. `DrawFacts.RoundingCanOverpay` proves this for three tickets at 1.33 and one tier paying everything to two winners. The Grand tier's doc comment (`GrandTierPrize.cs`, line 15) says 10%, but the code's 50% (line 17) is modelled.

## Model

| member | source | states |
|---|---|---|
| Money.RoundCents | LotteryGame/Services/Game/GameEngine.cs:52 | the result is a whole number of cents at most half a cent from the amount; a tie goes away from zero |
| Money.RoundCentsUnique | LotteryGame/Services/Game/GameEngine.cs:52 | those three properties determine the rounded amount, so any amount meeting them is the rounding |
| Money.RoundHalfEven | LotteryGame/Services/TierPrizes/SecondTierPrize.cs:24 | the count is a nearest integer to n/d, and the even one on a tie |
| Sequences.Take | LotteryGame/Services/TierPrizes/TierPrizeBase.cs:39 | `Take` yields the first min(max(count, 0), n) elements |
| Sequences.ExceptFrom | LotteryGame/Services/Game/GameManager.cs:158 | the result holds exactly the elements of the sequence not already seen, each once, and is a subsequence of it |
| Sequences.ExceptFromFirstOrder | LotteryGame/Services/Game/GameManager.cs:158 | the kept elements come in the order of their first occurrence in the sequence |
| Sequences.Except | LotteryGame/Services/Game/GameEngine.cs:59 | `a.Except(b)` holds exactly the values of `a` not in `b`, without duplicates, as a subsequence of `a` |
| Sequences.ExceptFirstOrder | LotteryGame/Services/Game/GameEngine.cs:59 | `a.Except(b)` lists its values in the order of their first occurrence in `a` |
| Sequences.ExceptSize | LotteryGame/Services/Game/GameEngine.cs:59 | removing duplicate-free winners drawn from a duplicate-free pool shrinks the pool by exactly the number of winners |
| TierPrizes.SelectRandomTickets | LotteryGame/Services/TierPrizes/TierPrizeBase.cs:36-40 | the selection has min(max(count, 0), n) tickets and takes no ticket more often than the pool holds it |
| TierPrizes.SelectWinners | LotteryGame/Services/TierPrizes/TierPrizeBase.cs:28 | a tier's winners are its winner count, clamped to the pool, drawn from the pool |
| TierPrizes.SelectRandomTicketsFacts | LotteryGame/Services/TierPrizes/TierPrizeBase.cs:36-40 | exact size; every pick is in the pool; no duplicates from a duplicate-free pool; an empty pool gives nothing |
| TierPrizes.ReplayIsShuffler | LotteryGame/Services/TierPrizes/TierPrizeBase.cs:39 | replaying any fixed order of the pool is a permissible shuffle |
| TierPrizes.SelectionIsShuffledPrefix | LotteryGame/Services/TierPrizes/TierPrizeBase.cs:39 | every selection of the right size that takes tickets only from the pool comes from some shuffle |
| TierPrizes.Name | LotteryGame/Services/TierPrizes/GrandTierPrize.cs:12 | a built-in tier is named "Grand Prize", "Second Prize" or "Third Prize"; any other tier keeps the name it was given |
| TierPrizes.SharePercentage | LotteryGame/Services/TierPrizes/GrandTierPrize.cs:17 | a built-in tier pays a share above 0% and at most 50%; any other tier its own share |
| TierPrizes.WinnerCount | LotteryGame/Services/TierPrizes/SecondTierPrize.cs:24 | a built-in tier asks for a non-negative number of winners, never more than a non-empty pool holds; any other tier its own count |
| TierPrizes.GrandTier | LotteryGame/Services/TierPrizes/GrandTierPrize.cs:12-24 | named "Grand Prize", a 50% share, exactly one winner from the pool when it is non-empty, none when it is empty |
| TierPrizes.SecondTier | LotteryGame/Services/TierPrizes/SecondTierPrize.cs:12-24 | named "Second Prize", a 30% share, a tenth of the pool rounded half to even, never more than the pool, distinct pool members |
| TierPrizes.ThirdTier | LotteryGame/Services/TierPrizes/ThirdTierPrize.cs:12-24 | named "Third Prize", a 10% share, a fifth of the pool rounded to the nearest integer (never a tie), distinct pool members |
| TierPrizes.WinnerCountExamples | LotteryGame/Services/TierPrizes/SecondTierPrize.cs:24 | the pool sizes 20, 5, 15, 25 and 0 give 2, 0, 2, 2 and 0 second-tier winners; 20, 3, 2 and 0 give 4, 1, 0 and 0 third-tier winners |
| GameEngine.NewEngine | LotteryGame/Services/Game/GameEngine.cs:17-22 | construction succeeds exactly when the instance, the configuration and a non-empty tier list are given; otherwise it fails with the guard's error for the first missing argument |
| GameEngine.PlayerIds | LotteryGame/Services/Game/GameEngine.cs:33 | every ticket holder is counted, there are no more distinct players than tickets, and at least one when there is a ticket (that no one else is counted is `PlayerIdsExact`) |
| GameEngine.PlayerIdsExact | LotteryGame/Services/Game/GameEngine.cs:33 | the players counted are exactly the holders of the tickets |
| GameEngine.PerTicket | LotteryGame/Services/Game/GameEngine.cs:50-52 | a winning ticket receives the tier's share split evenly among the winners, in whole cents, within half a cent, and never negative for a non-negative revenue and share |
| GameEngine.Draw | LotteryGame/Services/Game/GameEngine.cs:30-66 | the draw is refused exactly when the distinct player count is outside the configured bounds, with those bounds in the error (DrawFacts states what a successful draw guarantees) |
| GameEngine.Revenue | LotteryGame/Services/Game/GameEngine.cs:38 | the ticket revenue is never negative at a non-negative price |
| GameEngine.DrawWinners | LotteryGame/Services/Game/GameEngine.cs:30-66 | the method computes the draw function: a refusal for a player count out of range, else the tier loop's entries and the revenue less the winnings |
| GameEngine.RunTiers | LotteryGame/Services/Game/GameEngine.cs:43-60 | the `foreach` over the tiers ends in the state reached after every tier has had its turn |
| GameEngine.PlayTier | LotteryGame/Services/Game/GameEngine.cs:45-59 | one turn: a tier without winners changes nothing; otherwise its entry is recorded, its payout added and its winners leave the pool |
| GameEngine.StepRecordsWinners | LotteryGame/Services/Game/GameEngine.cs:46-47 | a round records an entry exactly when its tier picks someone, and changes nothing otherwise |
| GameEngine.StepKeepsWinnings | LotteryGame/Services/Game/GameEngine.cs:55-56 | a round keeps the accumulated winnings equal to what the entries pay out |
| GameEngine.StepKeepsTierOrder | LotteryGame/Services/Game/GameEngine.cs:43-55 | a round keeps the entries in tier order, each with winners |
| GameEngine.StepKeepsPricing | LotteryGame/Services/Game/GameEngine.cs:50-55 | a round keeps every entry priced by its tier's rule |
| GameEngine.StepKeepsPool | LotteryGame/Services/Game/GameEngine.cs:46-59 | a round keeps the pool equal to the unwon tickets, with the winners disjoint |
| GameEngine.WinningsAccountedAfter | LotteryGame/Services/Game/GameEngine.cs:41-56 | after any number of tiers, the accumulator equals what the recorded entries pay out |
| GameEngine.InTierOrderAfter | LotteryGame/Services/Game/GameEngine.cs:43-55 | after k tiers, the entries are in tier order, below k, each with winners |
| GameEngine.PricedAfter | LotteryGame/Services/Game/GameEngine.cs:50-55 | after any number of tiers, every entry carries its tier's price for its winner count |
| GameEngine.PoolIsUnwonAfter | LotteryGame/Services/Game/GameEngine.cs:46-59 | after any number of tiers, the pool is the input less every winner, winners come from the input, and no ticket wins twice |
| GameEngine.WinnersDisjointFacts | LotteryGame/Services/Game/GameEngine.cs:59 | each entry's winners are among all winners; with disjoint winners, two entries share no ticket |
| GameEngine.StepPaysPair | LotteryGame/Services/Game/GameEngine.cs:46-59 | a round whose tier picks two tickets records one entry and shrinks the pool by at most two |
| GameEngine.PairRound | LotteryGame/Services/Game/GameEngine.cs:46-59 | a round whose tier picks two tickets adds one entry and takes at most two distinct tickets from the pool |
| GameEngine.PairTiersAllPay | LotteryGame/Services/Game/GameEngine.cs:43-60 | tiers that each pick two tickets from any pool of at least two record one entry each |
| DrawFacts.TierSelectorPicksFromPool | LotteryGame/Services/Game/GameEngine.cs:46 | every tier picks its winners from the pool it is given |
| DrawFacts.DrawSettles | LotteryGame/Services/Game/GameEngine.cs:33-63 | a draw fails exactly when the distinct player count is out of bounds, with the bounds in the error; otherwise house revenue plus payouts equals ticket count times price |
| DrawFacts.DrawPartitionsWinners | LotteryGame/Services/Game/GameEngine.cs:43-59 | at most one entry per tier, in tier order, each with winners; every winner is an input ticket; no ticket wins in two tiers |
| DrawFacts.DrawPricesTiers | LotteryGame/Services/Game/GameEngine.cs:50-55 | each entry pays its tier's share of the revenue split among its winners and rounded to cents |
| DrawFacts.PayoutNearShare | LotteryGame/Services/Game/GameEngine.cs:50-52 | a tier's rounded payout is within half a cent per winner of its exact share |
| DrawFacts.EntryNearShare | LotteryGame/Services/Game/GameEngine.cs:50-56 | an entry priced by its tier's rule pays within half a cent per winner of the tier's share |
| DrawFacts.DrawPaysNearShares | LotteryGame/Services/Game/GameEngine.cs:50-56 | every entry of a draw pays within half a cent per winner of its tier's share |
| DrawFacts.DrawPairTiers | LotteryGame/Services/Game/GameEngine.cs:43-55 | with tiers of two winners each and at least two distinct tickets per tier, there is one result per tier |
| DrawFacts.SingleTierDraw | LotteryGame/Services/Game/GameEngine.cs:43-65 | a one-tier draw that picks someone has exactly that tier's entry, and the house keeps the revenue less its payout |
| DrawFacts.RoundingCanOverpay | LotteryGame/Services/Game/GameEngine.cs:52-63 | three tickets at 1.33 and one 100% tier with two winners pay each 2.00 and leave the house -0.01 |
| PlayerService.NewPlayers | LotteryGame/Services/PlayerManager.cs:53-54 | n new players with consecutive keys, each with the given balance |
| PlayerService.EnrolledFacts | LotteryGame/Services/PlayerManager.cs:53-56 | adding n players keeps the existing ones, adds exactly n new keys with the default balance, and grows the table by n |
| PlayerService.Enrolled | LotteryGame/Services/PlayerManager.cs:53-56 | the table holds the old keys and the new ones; each new key holds a new player with the given balance; other players are unchanged |
| PlayerService.EnrolledSize | LotteryGame/Services/PlayerManager.cs:53-56 | players added above every existing key grow the table by their number |
| PlayerService.Credited | LotteryGame/Services/PlayerManager.cs:79 | the balance change touches only the named player, whose balance grows by the amount; the keys stay the same |
| PlayerService.UpdateOutcome | LotteryGame/Services/PlayerManager.cs:72-88 | accepted exactly when the player exists and the new balance is not negative, returning the updated player; otherwise "player not found" or "negative balance" |
| PlayerService.UpdateRule | LotteryGame/Services/PlayerManager.cs:69-89 | accepted exactly when the player exists and the new balance is not negative; the new balance is old plus amount; other players are unchanged; a refused update still changes the balance in memory |
| PlayerService.PlayerManager.CreatePlayers | LotteryGame/Services/PlayerManager.cs:46-60 | a count of zero or less is refused with nothing changed; otherwise exactly n players with the default balance are added and saved |
| PlayerService.PlayerManager.CreatePlayer | LotteryGame/Services/PlayerManager.cs:34-38 | one new player under a fresh key, with the default balance, is added and saved |
| PlayerService.PlayerManager.UpdatePlayerBalance | LotteryGame/Services/PlayerManager.cs:69-89 | returns the update rule's outcome; the balance changes in memory whenever the player exists; only an accepted update is saved |
| TicketService.TruncateToInt | LotteryGame/Services/TicketManager.cs:49 | the `(int)` cast drops the fraction towards zero |
| TicketService.TicketsIssuable | LotteryGame/Services/TicketManager.cs:43-52 | never more than requested; a refusal is one of insufficient funds (with the price and the balance), a zero price, or a negative count |
| TicketService.FloorScale | LotteryGame/Services/TicketManager.cs:49 | the affordable count times the price is at most the balance, and one more ticket would exceed it |
| TicketService.PurchaseRule | LotteryGame/Services/TicketManager.cs:43-52 | refused exactly when the balance is below the price or the request is negative; the count is min(requested, floor(balance/price)), affordable, at least one when any is asked for, and a shortfall means one more ticket is unaffordable |
| TicketService.PurchaseExamples | LotteryGame/Services/TicketManager.cs:43-52 | a balance of 25 at a price of 10 buys 2 of 20 requested and 1 of 1; a balance of 5 is refused with price 10 and balance 5 |
| TicketService.PurchaseIsAffordable | LotteryGame/Services/TicketManager.cs:49-56 | paying for an accepted purchase leaves a balance between zero and the old one, so the balance update is accepted |
| TicketService.Issued | LotteryGame/Services/TicketManager.cs:52-53 | n tickets, each with the player and the game, with consecutive identities from the first one given |
| TicketService.ForGame | LotteryGame/Services/TicketManager.cs:72 | exactly the stored tickets of the game, with their multiplicities, in stored order (a subsequence of the stored tickets) |
| TicketService.TicketManager.BuyTickets | LotteryGame/Services/TicketManager.cs:36-63 | an unknown player or a refused purchase changes nothing; otherwise the balance drops by count times price, and on acceptance the issued tickets, under identities no stored ticket has, are appended and saved |
| TicketService.TicketManager.GetTicketsForGame | LotteryGame/Services/TicketManager.cs:70-73 | returns the saved tickets of the game |
| Credits.TicketShares | LotteryGame/Services/Game/GameManager.cs:157 | one share per winning ticket, carrying the ticket's player and the tier's amount |
| Credits.Payees | LotteryGame/Services/Game/GameManager.cs:158 | the players of the shares, in order |
| Credits.CreditsFor | LotteryGame/Services/Game/GameManager.cs:159-161 | one credit per player, holding that player's total |
| Credits.PlayerCredits | LotteryGame/Services/Game/GameManager.cs:156-162 | at most one credit per player (CreditPayees, CreditAmounts and CreditsSumToWinnings give its payees and amounts) |
| Credits.CreditOrder | LotteryGame/Services/Game/GameManager.cs:156-162 | the credited players are a subsequence of the winning tickets' holders, in the order of each player's first winning ticket |
| Credits.TicketSharesTotal | LotteryGame/Services/Game/GameManager.cs:157-161 | a tier's shares give a player the number of its winning tickets times the amount |
| Credits.TicketSharesSum | LotteryGame/Services/Game/GameManager.cs:157-161 | a tier's shares sum to its winner count times the amount |
| Credits.TotalIsEarned | LotteryGame/Services/Game/GameManager.cs:156-162 | a player's summed shares equal, tier by tier, the winning tickets it owns times the amount per ticket |
| Credits.SharesSumToWinnings | LotteryGame/Services/Game/GameManager.cs:156-157 | the shares of all winning tickets sum to the draw's total payout |
| Credits.SharePayees | LotteryGame/Services/Game/GameManager.cs:156-158 | a player receives a share exactly when it holds a winning ticket |
| Credits.CreditsForSum | LotteryGame/Services/Game/GameManager.cs:158-161 | credits to distinct players covering every share sum to the shares' total |
| Credits.CreditPayees | LotteryGame/Services/Game/GameManager.cs:156-162 | the credits go to exactly the players holding a winning ticket, one credit each |
| Credits.CreditAmounts | LotteryGame/Services/Game/GameManager.cs:156-162 | each credit is what that player's winning tickets earned over all tiers |
| Credits.CreditsSumToWinnings | LotteryGame/Services/Game/GameManager.cs:156-162 | the credits sum to what the tiers pay out |
| Credits.PlayerCreditsExample | LotteryGame/Services/Game/GameManager.cs:156-162 | a player winning in two tiers gets one credit of 7.00 ahead of the other player's 2.00 |
| GameService.Balances | LotteryGame/Services/Game/GameManager.cs:165-167 | adding the credits to the balances one after the other keeps the same players (SettleCredits and SettleOthers give each balance) |
| GameService.Settle | LotteryGame/Services/Game/GameManager.cs:165-167 | the updates change the balances in memory, accepted or not, and nothing else; a refusal stays the outcome; when every update is accepted, the last one has saved everything tracked |
| GameService.SettleCredits | LotteryGame/Services/PlayerManager.cs:79 | with distinct payees, each existing payee ends with its starting balance plus its credit |
| GameService.SettleOthers | LotteryGame/Services/Game/GameManager.cs:165-167 | a player without a credit keeps its balance |
| GameService.SettleBalances | LotteryGame/Services/Game/GameManager.cs:165-167 | crediting distinct players adds each credit to the existing player's balance, accepted or not, and leaves everyone else, the tickets and the games unchanged |
| GameService.LastUpdateSeesStart | LotteryGame/Services/Game/GameManager.cs:165-167 | with distinct payees, each update sees the balance from before the draw |
| GameService.SettleAccepted | LotteryGame/Services/Game/GameManager.cs:165-168 | the updates succeed exactly when every credit is accepted against the balances before them; they then return the credited players in order, and the last one saves the whole tracked state |
| GameService.SettleAcceptance | LotteryGame/Services/PlayerManager.cs:82-83 | with distinct payees, the updates are accepted exactly when each credit is accepted against the balances before the draw |
| GameService.SettleValues | LotteryGame/Services/Game/GameManager.cs:165-168 | when every credit is accepted, the updates return each credited player with its new balance, in credit order |
| GameService.SettleRefused | LotteryGame/Services/Game/GameManager.cs:165-167 | a refusal reports the error of the first credit refused against the balances before the draw |
| GameService.BalancesAfterDraw | LotteryGame/Services/Game/GameManager.cs:156-167 | afterwards every stored player holds its old balance plus what its winning tickets earned (nothing without one) |
| GameService.DrawCreditsSettle | LotteryGame/Services/Game/GameManager.cs:156-162 | after a successful draw, the credited winnings plus the house revenue equal the ticket revenue |
| GameService.GameManager.UpdateHouseRevenue | LotteryGame/Services/Game/GameManager.cs:139-146 | an unstored game is refused with nothing changed; otherwise only that game's house revenue grows by exactly the amount, and the state is saved |
| GameService.GameManager.UpdateUserBalancesFromDraw | LotteryGame/Services/Game/GameManager.cs:153-169 | the draw's per-player credits go through the player service in order; the result, the tracked state and the saved state are those of that settlement |


Proof helpers, which model no source line of their own: `Sequences.NoDuplicatesCardinality`, `Sequences.ElementsCardinality`, `Sequences.SubMultisetNoDuplicates`, `GameEngine.HoldersBound`, `GameEngine.TierStep`, `GameEngine.InTierOrderFacts`, `GameEngine.PricedFacts`, `DrawFacts.ScaleBound`, `DrawFacts.ThreeHolders`, `DrawFacts.SplitRoundsUp`, `Credits.TotalAppend`, `Credits.CreditsForSnoc`, `Credits.CreditsForZero`, and the arithmetic lemmas of `Money` other than `RoundCentsUnique`.

## Left out

- The console UI (`ConsoleGameUI`, `IGameUI`), `Program.cs`, dependency injection and configuration loading are not modelled.
- Entity Framework persistence is replaced by the `GameDb` class: tracked maps and a sequence, plus the last saved state. Keys come from counters instead of database generation and `Guid`s.
- Timestamps (purchase, start and end dates) are not modelled.
- The orchestration methods of `GameManager` (`StartNewGame`, `InitiateNewGame`, `StartGameUI`, `RestartGame`) are not modelled: they are UI-driven, random and exit the process. `GameManager.engine` is set by the constructor, where the source sets it in `InitiateNewGame`.
- `System.Random` is not modelled; it is the `shuffle` parameter. The random player and ticket counts of the orchestration are not modelled either.
- IEEE doubles in the winner counts are not modelled, nor are `decimal`'s 28-digit precision and overflow. Exact reals are used instead, so the `OverflowException` of an `(int)` cast on a huge balance is not modelled.
- Concurrency is not modelled: `Task.WhenAll` over the balance updates is sequential, in player order.
- Tier identity is not modelled: results are keyed by the tier's position, so two occurrences of one tier object are two entries here. The source's `tierResults[tier] = …` (`LotteryGame/Services/Game/GameEngine.cs`, line 55) keeps only the later occurrence's result. Both payouts still count against the house revenue (line 56), and both sets of winners leave the pool (line 59), so the earlier occurrence's winners are never credited. For such a tier list `DrawFacts.DrawSettles` does not describe the source. The program's own tiers are three distinct objects (`LotteryGame/Program.cs`, lines 40-42), and `TierPrizeBase` does not override `Equals`.
- Exception messages, and the currency formatting of `InsufficientFundsException`, are not modelled. Each error is a variant carrying its data.
- The services' constructor null guards are not modelled. Their references are never null here.
- TicketService.TicketManager.GetTicketsForGame: reads the saved tickets, which is what the database query returns. Tickets added but not yet saved are not visible, as in the source.
- The test tier classes and the repository's tests are not part of this model. Their scenarios appear as `Custom` tiers and example lemmas.
