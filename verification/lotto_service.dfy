/**
 * The rules engine of the lotto game (lotto.service.LottoService): purchase
 * validation, ticket count, ticket generation, winning-ticket construction,
 * the per-rank statistics and the total prize.
 */
module LottoService {
  import opened Wrappers
  import opened LottoModel

  const PRICE_PER_LOTTO: int := 1000
  const LOTTO_SIZE: int := 6
  /** The range handed to the random source when a ticket is generated. */
  const MIN_NUMBER: int := 1
  const MAX_NUMBER: int := 45

  /** The distinct reasons for which the service rejects an input. */
  datatype Error =
    | NotNumeric            // the purchase amount does not parse as an integer
    | BelowPrice            // the purchase amount is below the price of one ticket
    | NotPriceMultiple      // the purchase amount is not a whole number of tickets
    | InvalidNumbers        // LottoNumbers.validateNumbers rejected a list of numbers
    | WinningLottoRejected  // the WinningLotto constructor rejected the draw

  // ---------------------------------------------------------------------------
  // Purchase amount

  /** The range check on a parsed amount: at least one ticket, whole tickets only. */
  function ValidateAmountRange(amount: int): (o: Outcome<Error>)
    ensures o.Pass? <==> amount >= PRICE_PER_LOTTO && amount % PRICE_PER_LOTTO == 0
    ensures amount < PRICE_PER_LOTTO ==> o == Fail(BelowPrice)
    ensures amount >= PRICE_PER_LOTTO && amount % PRICE_PER_LOTTO != 0 ==> o == Fail(NotPriceMultiple)
  {
    if amount < PRICE_PER_LOTTO then Fail(BelowPrice)
    // amount is positive here, so Dafny's % agrees with Java's
    else if amount % PRICE_PER_LOTTO != 0 then Fail(NotPriceMultiple)
    else Pass
  }

  /**
   * Validation of the raw purchase input. The input is the result of
   * Integer.parseInt: None when parsing failed.
   */
  function ValidatePurchaseAmount(input: Option<int>): (o: Outcome<Error>)
    ensures o.Pass? <==> input.Some? && input.value >= PRICE_PER_LOTTO && input.value % PRICE_PER_LOTTO == 0
    ensures input.None? <==> o == Fail(NotNumeric)
    ensures input.Some? ==> o == ValidateAmountRange(input.value)
  {
    match input
    case None => Fail(NotNumeric)
    case Some(amount) => ValidateAmountRange(amount)
  }

  /** The number of tickets an amount buys: Java's int division, which truncates toward zero. */
  function CalculateLottoCount(purchaseAmount: int): (count: int)
    ensures purchaseAmount >= 0 ==> 0 <= purchaseAmount - count * PRICE_PER_LOTTO < PRICE_PER_LOTTO
    ensures purchaseAmount < 0 ==> -PRICE_PER_LOTTO < purchaseAmount - count * PRICE_PER_LOTTO <= 0
  {
    if purchaseAmount >= 0 then purchaseAmount / PRICE_PER_LOTTO
    else -((-purchaseAmount) / PRICE_PER_LOTTO)
  }

  /** An accepted amount buys at least one ticket and is spent exactly. */
  lemma AcceptedAmountBuysWholeTickets(amount: int)
    requires ValidatePurchaseAmount(Some(amount)).Pass?
    ensures CalculateLottoCount(amount) >= 1
    ensures CalculateLottoCount(amount) * PRICE_PER_LOTTO == amount
  {
  }

  // ---------------------------------------------------------------------------
  // Ticket generation

  /** The numbers drawn for the k-th ticket: pickUniqueNumbersInRange(1, 45, 6). */
  function Draw(pick: Randoms, k: nat): seq<int> {
    pick(k, MIN_NUMBER, MAX_NUMBER, LOTTO_SIZE)
  }

  /** One ticket from the k-th draw, built only after the numbers pass validateNumbers. */
  function GenerateLotto(validNumbers: seq<int> -> bool, pick: Randoms, k: nat): (r: Result<Lotto, Error>)
    ensures r.Success? <==> validNumbers(Draw(pick, k))
    ensures r.Success? ==> r.value.numbers == Draw(pick, k)
    ensures r.Failure? ==> r.error == InvalidNumbers
  {
    var numbers := Draw(pick, k);
    if validNumbers(numbers) then Success(Lotto(numbers)) else Failure(InvalidNumbers)
  }

  /**
   * count tickets in generation order; the first draw that fails validation
   * aborts the whole call. A count of zero or less yields no ticket.
   */
  method GenerateLottos(validNumbers: seq<int> -> bool, pick: Randoms, count: int)
    returns (r: Result<seq<Lotto>, Error>)
    ensures r.Success? <==> forall k: nat :: k < count ==> validNumbers(Draw(pick, k))
    ensures r.Success? ==> |r.value| == (if count > 0 then count else 0)
    ensures r.Success? ==> forall k :: 0 <= k < |r.value| ==> r.value[k] == Lotto(Draw(pick, k))
    ensures r.Success? ==> forall lotto :: lotto in r.value ==> validNumbers(lotto.numbers)
    ensures r.Failure? ==> r.error == InvalidNumbers
  {
    var lottos: seq<Lotto> := [];
    var i := 0;
    while i < count
      invariant 0 <= i <= (if count > 0 then count else 0)
      invariant |lottos| == i
      invariant forall k :: 0 <= k < i ==> lottos[k] == Lotto(Draw(pick, k)) && validNumbers(Draw(pick, k))
    {
      var lotto := GenerateLotto(validNumbers, pick, i);
      if lotto.Failure? {
        return Failure(lotto.error);
      }
      lottos := lottos + [lotto.value];
      i := i + 1;
    }
    return Success(lottos);
  }

  // ---------------------------------------------------------------------------
  // The draw

  /** The winning numbers are validated before any ticket or draw is built. */
  function CreateWinningLotto(validNumbers: seq<int> -> bool, rules: WinningLottoRules,
                              winningNumbers: seq<int>, bonusNumber: int): (r: Result<WinningLotto, Error>)
    ensures r.Success? <==> validNumbers(winningNumbers) && rules.accepts(Lotto(winningNumbers), bonusNumber)
    ensures !validNumbers(winningNumbers) ==> r == Failure(InvalidNumbers)
    ensures validNumbers(winningNumbers) && r.Failure? ==> r.error == WinningLottoRejected
    ensures r.Success? ==> r.value.winning.numbers == winningNumbers && r.value.bonus == bonusNumber
  {
    if !validNumbers(winningNumbers) then Failure(InvalidNumbers)
    else
      var winningLotto := Lotto(winningNumbers);
      if rules.accepts(winningLotto, bonusNumber) then Success(WinningLotto(winningLotto, bonusNumber))
      else Failure(WinningLottoRejected)
  }

  // ---------------------------------------------------------------------------
  // Statistics

  /** The rank of a ticket: valueOf applied to its match count and bonus match. */
  function DetermineWinningRank<R(!new)>(table: RankTable<R>, rules: WinningLottoRules,
                                   lotto: Lotto, winningLotto: WinningLotto): R
  {
    var matchCount := rules.matchNumbersCount(winningLotto, lotto);
    var matchBonus := rules.matchBonusNumber(winningLotto, lotto);
    table.valueOf(matchCount, matchBonus)
  }

  /** How many of the tickets reach the given rank. */
  function RankCount<R(!new)>(table: RankTable<R>, rules: WinningLottoRules, lottos: seq<Lotto>,
                        winningLotto: WinningLotto, rank: R): (n: nat)
    ensures n <= |lottos|
    ensures n == 0 <== forall k :: 0 <= k < |lottos| ==> DetermineWinningRank(table, rules, lottos[k], winningLotto) != rank
  {
    if lottos == [] then 0
    else
      var last := lottos[|lottos| - 1];
      RankCount(table, rules, lottos[..|lottos| - 1], winningLotto, rank)
        + (if DetermineWinningRank(table, rules, last, winningLotto) == rank then 1 else 0)
  }

  /** stats is the statistics of the tickets: every rank present, each with its RankCount. */
  ghost predicate IsTally<R(!new)>(table: RankTable<R>, rules: WinningLottoRules, lottos: seq<Lotto>,
                             winningLotto: WinningLotto, stats: map<R, int>)
  {
    && stats.Keys == Elements(table.values)
    && forall rank :: rank in stats ==> stats[rank] == RankCount(table, rules, lottos, winningLotto, rank)
  }

  /** Puts 0 for every rank into the map; entries for other keys stay as they were. */
  method InitializeStatistics<R(!new)>(table: RankTable<R>, statistics: map<R, int>)
    returns (initialized: map<R, int>)
    ensures initialized.Keys == statistics.Keys + Elements(table.values)
    ensures forall rank :: rank in table.values ==> initialized[rank] == 0
    ensures forall key :: key in statistics && key !in table.values ==> initialized[key] == statistics[key]
  {
    initialized := statistics;
    for i := 0 to |table.values|
      invariant initialized.Keys == statistics.Keys + Elements(table.values[..i])
      invariant forall rank :: rank in table.values[..i] ==> initialized[rank] == 0
      invariant forall key :: key in statistics && key !in table.values[..i] ==> initialized[key] == statistics[key]
    {
      assert table.values[..i + 1] == table.values[..i] + [table.values[i]];
      initialized := initialized[table.values[i] := 0];
    }
    assert table.values[..|table.values|] == table.values;
  }

  /** One entry per rank, counting the tickets that reach it; each ticket adds 1 to its rank only. */
  method CalculateWinningStatistics<R(!new)>(table: RankTable<R>, rules: WinningLottoRules,
                                       lottos: seq<Lotto>, winningLotto: WinningLotto)
    returns (statistics: map<R, int>)
    requires table.Valid()
    ensures IsTally(table, rules, lottos, winningLotto, statistics)
  {
    statistics := InitializeStatistics(table, map[]);
    for i := 0 to |lottos|
      invariant statistics.Keys == Elements(table.values)
      invariant forall rank :: rank in statistics ==> statistics[rank] == RankCount(table, rules, lottos[..i], winningLotto, rank)
    {
      assert lottos[..i + 1][..i] == lottos[..i];
      var rank := DetermineWinningRank(table, rules, lottos[i], winningLotto);
      statistics := statistics[rank := statistics[rank] + 1];
    }
    assert lottos[..|lottos|] == lottos;
  }

  // ---------------------------------------------------------------------------
  // Prize

  /** The sum, over the ranks in rs that are keys of stats, of weight(rank) * stats[rank]. */
  function WeightedSum<R>(rs: seq<R>, stats: map<R, int>, weight: R -> nat): (sum: int)
    ensures (forall r :: r in stats ==> stats[r] >= 0) ==> sum >= 0
  {
    if rs == [] then 0
    else
      (if rs[0] in stats then weight(rs[0]) * stats[rs[0]] else 0) + WeightedSum(rs[1..], stats, weight)
  }

  /**
   * The total prize: prize * count summed over the map's entries. Every key
   * of an EnumMap is a constant, and values() lists all of them, so the
   * entries are the keys of stats taken in the order of values().
   */
  function CalculateTotalPrize<R(!new)>(table: RankTable<R>, stats: map<R, int>): (total: int)
    requires table.Valid()
    ensures (forall rank :: rank in stats ==> stats[rank] >= 0) ==> total >= 0
  {
    WeightedSum(table.values, stats, table.prize)
  }

  /** Sum of the entries of stats: how many tickets the statistics account for. */
  function TotalCount<R(!new)>(table: RankTable<R>, stats: map<R, int>): int {
    WeightedSum(table.values, stats, One)
  }

  function One<R>(r: R): nat { 1 }

  /** The reference definition: weight of each ticket's rank, summed over the tickets. */
  function TicketWeights<R(!new)>(table: RankTable<R>, rules: WinningLottoRules, lottos: seq<Lotto>,
                            winningLotto: WinningLotto, weight: R -> nat): int
  {
    if lottos == [] then 0
    else
      TicketWeights(table, rules, lottos[..|lottos| - 1], winningLotto, weight)
        + weight(DetermineWinningRank(table, rules, lottos[|lottos| - 1], winningLotto))
  }
}
