/**
 * The collaborators of the lotto service. Their implementations
 * (lotto.model.Lotto, LottoNumbers, LottoRank, WinningLotto) are not part of
 * this model: each behaviour the service relies on is a function-valued field
 * supplied by the caller. RankTable.Valid states what the Java enum type
 * guarantees. Two things are assumed about unseen code and are fixed by the
 * field types of RankTable: valueOf is total (it returns a constant for every
 * input, never null or an exception), and prizes are non-negative.
 */
module LottoModel {

  /** A ticket, built from the list of numbers it was created with. */
  datatype Lotto = Lotto(numbers: seq<int>)

  /** The draw: the winning ticket and the bonus number. */
  datatype WinningLotto = WinningLotto(winning: Lotto, bonus: int)

  /**
   * The LottoRank enum: its constants in declaration order (values()),
   * the rank of a (match count, bonus matched) pair (valueOf) and the prize
   * of each rank (getPrize).
   */
  datatype RankTable<!R(==,!new)> = RankTable(
    values: seq<R>,
    valueOf: (int, bool) -> R,
    prize: R -> nat)
  {
    /** What the Java enum type guarantees: values() lists every constant exactly once. */
    ghost predicate Valid() {
      && Distinct(values)
      && forall rank: R :: rank in values
    }
  }

  /**
   * The behaviour of WinningLotto: whether its constructor accepts a winning
   * ticket and a bonus number, how many numbers of a ticket it matches, and
   * whether a ticket holds its bonus number.
   */
  datatype WinningLottoRules = WinningLottoRules(
    accepts: (Lotto, int) -> bool,
    matchNumbersCount: (WinningLotto, Lotto) -> int,
    matchBonusNumber: (WinningLotto, Lotto) -> bool)

  /**
   * The random source: pick(k, low, high, size) is the list returned by the
   * k-th call (counting from 0) of Randoms.pickUniqueNumbersInRange(low, high, size).
   */
  type Randoms = (nat, int, int, int) -> seq<int>

  predicate Distinct<T(==)>(s: seq<T>) {
    forall i, j :: 0 <= i < j < |s| ==> s[i] != s[j]
  }

  function Elements<T>(s: seq<T>): set<T> {
    set x | x in s
  }
}
