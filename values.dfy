/** Cell values shared by the signal generator and the backtest ledger. */
module Values {

  /** One cell of a pandas float column: a number, or NaN where pandas has no value. */
  datatype Cell = NaN | Num(v: real)

  /** The outcome of a call that pandas may refuse with a ValueError. */
  datatype Result<T, E> = Ok(value: T) | Err(error: E)
}
