/**
 * What the statistics and the total prize mean: the counts account for every
 * ticket exactly once, and the total prize is the sum of the prizes of the
 * individual tickets.
 */
module StatisticsProofs {
  import opened LottoModel
  import opened LottoService

  /** The weight of each ticket's rank, summed over the tickets whose rank lies in ranks. */
  function WeightIn<R(!new)>(table: RankTable<R>, rules: WinningLottoRules, lottos: seq<Lotto>,
                       winningLotto: WinningLotto, weight: R -> nat, ranks: set<R>): nat
  {
    if lottos == [] then 0
    else
      var rank := DetermineWinningRank(table, rules, lottos[|lottos| - 1], winningLotto);
      WeightIn(table, rules, lottos[..|lottos| - 1], winningLotto, weight, ranks)
        + (if rank in ranks then weight(rank) else 0)
  }

  /** Taking one more rank into account adds that rank's weight once per ticket reaching it. */
  lemma {:induction false} WeightInAddRank<R(!new)>(table: RankTable<R>, rules: WinningLottoRules, lottos: seq<Lotto>,
                                              winningLotto: WinningLotto, weight: R -> nat, rank: R, ranks: set<R>)
    requires rank !in ranks
    ensures WeightIn(table, rules, lottos, winningLotto, weight, {rank} + ranks)
         == weight(rank) * RankCount(table, rules, lottos, winningLotto, rank)
            + WeightIn(table, rules, lottos, winningLotto, weight, ranks)
  {
    if lottos != [] {
      var prefix := lottos[..|lottos| - 1];
      WeightInAddRank(table, rules, prefix, winningLotto, weight, rank, ranks);
      var c := RankCount(table, rules, prefix, winningLotto, rank);
      assert weight(rank) * (c + 1) == weight(rank) * c + weight(rank);
    }
  }

  /** No rank taken into account, no weight. */
  lemma {:induction false} WeightInNoRank<R(!new)>(table: RankTable<R>, rules: WinningLottoRules, lottos: seq<Lotto>,
                                             winningLotto: WinningLotto, weight: R -> nat)
    ensures WeightIn(table, rules, lottos, winningLotto, weight, {}) == 0
  {
    if lottos != [] {
      WeightInNoRank(table, rules, lottos[..|lottos| - 1], winningLotto, weight);
    }
  }

  /** Summing weight * count over distinct ranks weighs every ticket whose rank is among them. */
  lemma {:induction false} WeightedSumOfCounts<R(!new)>(table: RankTable<R>, rules: WinningLottoRules, lottos: seq<Lotto>,
                                                  winningLotto: WinningLotto, weight: R -> nat,
                                                  rs: seq<R>, stats: map<R, int>)
    requires Distinct(rs)
    requires forall r :: r in rs ==> r in stats && stats[r] == RankCount(table, rules, lottos, winningLotto, r)
    ensures WeightedSum(rs, stats, weight) == WeightIn(table, rules, lottos, winningLotto, weight, Elements(rs))
  {
    if rs == [] {
      assert Elements(rs) == {};
      WeightInNoRank(table, rules, lottos, winningLotto, weight);
    } else {
      WeightedSumOfCounts(table, rules, lottos, winningLotto, weight, rs[1..], stats);
      assert rs[0] !in Elements(rs[1..]);
      WeightInAddRank(table, rules, lottos, winningLotto, weight, rs[0], Elements(rs[1..]));
      assert Elements(rs) == {rs[0]} + Elements(rs[1..]);
    }
  }

  /** When every ticket's rank lies in ranks, restricting to ranks changes nothing. */
  lemma {:induction false} WeightInCoversAll<R(!new)>(table: RankTable<R>, rules: WinningLottoRules, lottos: seq<Lotto>,
                                                winningLotto: WinningLotto, weight: R -> nat, ranks: set<R>)
    requires forall k :: 0 <= k < |lottos| ==> DetermineWinningRank(table, rules, lottos[k], winningLotto) in ranks
    ensures WeightIn(table, rules, lottos, winningLotto, weight, ranks)
         == TicketWeights(table, rules, lottos, winningLotto, weight)
  {
    if lottos != [] {
      var prefix := lottos[..|lottos| - 1];
      assert forall k :: 0 <= k < |prefix| ==> prefix[k] == lottos[k];
      WeightInCoversAll(table, rules, prefix, winningLotto, weight, ranks);
    }
  }

  /** For any weighting of the ranks, the statistics weigh each ticket once. */
  lemma TallyWeighsEveryTicket<R(!new)>(table: RankTable<R>, rules: WinningLottoRules, lottos: seq<Lotto>,
                                  winningLotto: WinningLotto, stats: map<R, int>, weight: R -> nat)
    requires table.Valid()
    requires IsTally(table, rules, lottos, winningLotto, stats)
    ensures WeightedSum(table.values, stats, weight) == TicketWeights(table, rules, lottos, winningLotto, weight)
  {
    WeightedSumOfCounts(table, rules, lottos, winningLotto, weight, table.values, stats);
    WeightInCoversAll(table, rules, lottos, winningLotto, weight, Elements(table.values));
  }

  /** Each ticket of weight 1 contributes 1: the reference count is the number of tickets. */
  lemma {:induction false} UnitWeightsCountTickets<R(!new)>(table: RankTable<R>, rules: WinningLottoRules,
                                                      lottos: seq<Lotto>, winningLotto: WinningLotto)
    ensures TicketWeights(table, rules, lottos, winningLotto, One) == |lottos|
  {
    if lottos != [] {
      UnitWeightsCountTickets(table, rules, lottos[..|lottos| - 1], winningLotto);
    }
  }

  /** The counts of the statistics add up to the number of tickets. */
  lemma StatisticsCountEveryTicket<R(!new)>(table: RankTable<R>, rules: WinningLottoRules, lottos: seq<Lotto>,
                                      winningLotto: WinningLotto, stats: map<R, int>)
    requires table.Valid()
    requires IsTally(table, rules, lottos, winningLotto, stats)
    ensures TotalCount(table, stats) == |lottos|
  {
    TallyWeighsEveryTicket(table, rules, lottos, winningLotto, stats, One);
    UnitWeightsCountTickets(table, rules, lottos, winningLotto);
  }

  /** The total prize of the statistics is the sum of the prizes of the individual tickets. */
  lemma TotalPrizeIsSumOfTicketPrizes<R(!new)>(table: RankTable<R>, rules: WinningLottoRules, lottos: seq<Lotto>,
                                         winningLotto: WinningLotto, stats: map<R, int>)
    requires table.Valid()
    requires IsTally(table, rules, lottos, winningLotto, stats)
    ensures CalculateTotalPrize(table, stats) == TicketWeights(table, rules, lottos, winningLotto, table.prize)
    ensures CalculateTotalPrize(table, stats) >= 0
  {
    TallyWeighsEveryTicket(table, rules, lottos, winningLotto, stats, table.prize);
  }

  /** Every count multiplied by factor. */
  function Scaled<R>(stats: map<R, int>, factor: int): map<R, int> {
    map r | r in stats :: factor * stats[r]
  }

  lemma {:induction false} WeightedSumScales<R>(rs: seq<R>, stats: map<R, int>, weight: R -> nat, factor: int)
    ensures WeightedSum(rs, Scaled(stats, factor), weight) == factor * WeightedSum(rs, stats, weight)
  {
    if rs != [] {
      WeightedSumScales(rs[1..], stats, weight, factor);
      if rs[0] in stats {
        var w, c := weight(rs[0]), stats[rs[0]];
        assert w * (factor * c) == factor * (w * c);
      }
    }
  }

  /** Multiplying every count by the same factor multiplies the total prize by it. */
  lemma TotalPrizeScales<R(!new)>(table: RankTable<R>, stats: map<R, int>, factor: int)
    requires table.Valid()
    ensures CalculateTotalPrize(table, Scaled(stats, factor)) == factor * CalculateTotalPrize(table, stats)
  {
    WeightedSumScales(table.values, stats, table.prize, factor);
  }
}
