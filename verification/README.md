# Lotto rules engine, modelled in Dafny

This project models `LottoService`, the rules engine of a console lotto game.
A player buys tickets at 1000 won each. Each ticket holds six numbers drawn at
random from 1 to 45. The player then enters the winning numbers and a bonus
number. The service ranks every ticket by how many winning numbers it matches
and whether it holds the bonus number, counts the tickets per rank and sums
the prizes.

The collaborators of the service are not part of this model:
`lotto.model.Lotto`, `LottoNumbers`, `LottoRank`, `WinningLotto` and the
random source `Randoms`. Each behaviour the service uses from them is a
function-valued parameter (`lotto_model.dfy`):

- `RankTable<R>` is the `LottoRank` enum. It holds `values()` in declaration
  order, `valueOf(matchCount, matchBonus)` and `getPrize()`.
  `RankTable.Valid()` states what the Java enum type guarantees: `values()`
  lists every constant exactly once. The field types carry two assumptions
  about code outside this model. `valueOf` is a total function into the
  constants, and `getPrize()` returns a `nat` (see "## Left out").
- `WinningLottoRules` gives three things: whether the `WinningLotto`
  constructor accepts a ticket and bonus number, `matchNumbersCount` and
  `matchBonusNumber`.
- `validNumbers` tells whether `LottoNumbers.validateNumbers` accepts a list.
- `Randoms` is the random source. `pick(k, low, high, size)` is the list that
  the k-th call of `pickUniqueNumbersInRange` returns.

Exceptions are modelled as values: `Outcome` for checks that return nothing,
`Result` for operations that build something. The `Error` tags stand for the
service's distinct error messages.

Files:
- `wrappers.dfy`: Option, Result, Outcome.
- `lotto_model.dfy`: the collaborators, as described above.
- `lotto_service.dfy`: the operations of `LottoService`, plus the functions
  that specify them.
- `statistics_proofs.dfy`: lemmas about the statistics and the total prize.

## Model

| member | source | states |
|---|---|---|
| LottoService.ValidateAmountRange | src/main/java/lotto/service/LottoService.java:27-34 | An amount passes iff it is at least 1000 and a multiple of 1000. Below 1000 gives BelowPrice, which is checked first. Otherwise a remainder gives NotPriceMultiple. |
| LottoService.ValidatePurchaseAmount | src/main/java/lotto/service/LottoService.java:18-25 | The input is accepted iff it parsed and the amount is at least 1000 and a multiple of 1000. The NotNumeric error occurs exactly when parsing failed. A parsed amount gets the range check's own outcome, so its errors pass through unchanged. |
| LottoService.CalculateLottoCount | src/main/java/lotto/service/LottoService.java:36-38 | The count is the quotient of Java's truncating division by 1000. For a non-negative amount the remainder lies in [0, 1000). For a negative amount it lies in (-1000, 0]. |
| LottoService.AcceptedAmountBuysWholeTickets | src/main/java/lotto/service/LottoService.java:27-38 | An accepted amount buys at least one ticket, and count * 1000 equals the amount exactly. |
| LottoService.GenerateLotto | src/main/java/lotto/service/LottoService.java:48-52 | A ticket is built from the k-th draw of (1, 45, 6) iff validateNumbers accepts the draw. The ticket holds exactly those numbers. A rejected draw yields InvalidNumbers. |
| LottoService.GenerateLottos | src/main/java/lotto/service/LottoService.java:40-46 | Succeeds iff the first count draws are all valid. The result then holds max(count, 0) tickets, and ticket k is built from draw k, in generation order. Every ticket's numbers passed validation. Otherwise the error is InvalidNumbers. |
| LottoService.CreateWinningLotto | src/main/java/lotto/service/LottoService.java:54-58 | Succeeds iff the numbers are valid and the WinningLotto constructor accepts the draw. Invalid numbers are reported as InvalidNumbers before anything is built. A success holds the given numbers and bonus. |
| LottoService.RankCount | src/main/java/lotto/service/LottoService.java:64-67 | Counts the tickets that reach a rank. The count never exceeds the number of tickets, and a rank that no ticket reaches has count 0. |
| LottoService.InitializeStatistics | src/main/java/lotto/service/LottoService.java:72-76 | Afterwards every rank is a key with value 0. Keys that are not ranks keep their values, and no other key is added. |
| LottoService.CalculateWinningStatistics | src/main/java/lotto/service/LottoService.java:60-82 | The keys are exactly the ranks. Each rank's entry is the number of tickets whose rank is that rank. A ticket's rank is valueOf(matchCount, matchBonus), as determineWinningRank computes it. |
| LottoService.WeightedSum | src/main/java/lotto/service/LottoService.java:89-93 | Summing nat weight times count over the entries is non-negative when every count is non-negative. |
| LottoService.CalculateTotalPrize | src/main/java/lotto/service/LottoService.java:89-93 | The total prize is the sum of prize * count over the entries. Every possible key is a rank listed in values(), so no entry is skipped. The total is non-negative when every count is non-negative. |
| StatisticsProofs.WeightInAddRank | src/main/java/lotto/service/LottoService.java:64-67 | Adding one rank to those counted adds weight(rank) once for each ticket that reaches it. |
| StatisticsProofs.WeightedSumOfCounts | src/main/java/lotto/service/LottoService.java:60-70 | Summing weight * count over distinct ranks equals summing the weight of each ticket whose rank is among those ranks. |
| StatisticsProofs.TallyWeighsEveryTicket | src/main/java/lotto/service/LottoService.java:60-70 | For any weighting of the ranks, the weighted sum of the statistics equals the weights of the tickets' ranks summed ticket by ticket. |
| StatisticsProofs.StatisticsCountEveryTicket | src/main/java/lotto/service/LottoService.java:60-70 | The counts of the statistics add up to exactly the number of tickets. |
| StatisticsProofs.TotalPrizeIsSumOfTicketPrizes | src/main/java/lotto/service/LottoService.java:89-93 | On the statistics of a ticket list, the total prize equals the prize of each ticket's rank summed over the tickets, and it is non-negative. |
| StatisticsProofs.TotalPrizeScales | src/main/java/lotto/service/LottoService.java:84-93 | Multiplying every count by a factor multiplies the total prize, and so the return rate's numerator, by that factor. |

## Left out

- `calculateReturnRate` (lines 84-87) is a `double` division, and floating point is not modelled. Its integer numerator, the total prize, is modelled.
- `Integer.parseInt` is not modelled. The purchase input is an `Option<int>`, and `None` stands for a `NumberFormatException`, which includes values outside the 32-bit range.
- Java `int` and `long` overflow are not modelled. All arithmetic, including the `long` total prize at line 91, uses unbounded integers.
- `Randoms.pickUniqueNumbersInRange` is not modelled. It becomes the `Randoms` oracle, which is indexed by the call number.
- The internals of `Lotto`, `LottoNumbers`, `LottoRank` and `WinningLotto` are not part of this model. No prize amounts, number ranges, ranking rules or bonus-duplicate policy are assumed, except for the two assumptions on the next line.
- `LottoRank.valueOf` is assumed to return one of the constants for every (matchCount, matchBonus), never null and never an exception, and `getPrize()` is assumed non-negative. The model does not cover the NullPointerException at line 66 that a null rank would cause. The non-negativity of the total prize rests on the second assumption.
- The `Lotto` constructor is taken to accept every list that `LottoNumbers.validateNumbers` accepted. Any check of its own is not part of this model.
- The error message texts are reduced to the distinct `Error` tags.
- The `EnumMap` is modelled as a `map` that the statistics method rebuilds on each update. Its keys are ranks, and the total prize visits them in the order of `values()`.
