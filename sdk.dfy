/**
 * What the business modules see of the host chain: coins, the sdk's denom
 * and coin rules, and the bank, supply and account keepers. The keepers are
 * collaborators whose own state is not modelled: for one call, each of
 * their operations either succeeds or fails, and the balances they report
 * are given.
 */
module Sdk {
  import opened Codec

  /**
   * An sdk.Coin. The amount is an sdk.Int, held here as an unbounded int:
   * the sdk's panic on results wider than 255 bits is not modelled.
   */
  datatype Coin = Coin(denom: Bytes, amount: int)

  /**
   * sdk.ValidateDenom, Coin.IsValid, and whether a string parses with
   * sdk.ParseCoin / sdk.ParseCoins.
   */
  datatype SdkRules = SdkRules(
    validDenom: Bytes -> bool,
    coinIsValid: Coin -> bool,
    parsesAsCoin: Bytes -> bool,
    parsesAsCoins: Bytes -> bool)

  datatype Host = Host(
    rules: SdkRules,
    accountExists: Bytes -> bool,
    totalSupply: Bytes -> int,
    moduleBalance: Bytes -> int,
    sendToModule: (Bytes, Coin) -> bool,
    sendFromModule: (Bytes, Coin) -> bool,
    mintToModule: Coin -> bool,
    addCoins: (Bytes, Coin) -> bool,
    subtractCoins: (Bytes, Coin) -> bool)

  /**
   * sdk.NewCoin panics on an invalid denom or a negative amount; the panic
   * aborts the transaction, which the model reports as an error.
   */
  predicate NewCoinOk(host: Host, denom: Bytes, amount: int)
  {
    host.rules.validDenom(denom) && amount >= 0
  }
}
