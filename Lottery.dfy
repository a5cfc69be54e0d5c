/** The three games of `lotto`: how many balls are drawn, from what range, and any bonus ball. */
module Lottery {

  datatype Game = WALotto | MegaMillions | PowerBall

  /** `getRange`: the highest ball. */
  function Range(g: Game): nat {
    match g
    case WALotto => 49
    case MegaMillions => 75
    case PowerBall => 59
  }

  /** `getNumberOfBalls`: how many balls a draw holds, the bonus ball aside. */
  function NumberOfBalls(g: Game): nat {
    match g
    case WALotto => 6
    case MegaMillions => 5
    case PowerBall => 5
  }

  /** `hasBonusBall`. */
  predicate HasBonusBall(g: Game) {
    g != WALotto
  }

  /** `getBonusBallRange` of the two bonus-ball games. */
  function BonusBallRange(g: Game): nat
    requires HasBonusBall(g)
  {
    match g
    case MegaMillions => 15
    case PowerBall => 35
  }

  /** `getNumberOfBonusBalls` of the two bonus-ball games. */
  function NumberOfBonusBalls(g: Game): nat
    requires HasBonusBall(g)
  {
    1
  }
}
