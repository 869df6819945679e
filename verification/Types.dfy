/** Vocabulary shared by the server and client models. */
module Types {

  datatype Option<+T> = None | Some(value: T)

  datatype Result<+T, +E> = Ok(value: T) | Err(error: E)

  datatype Side = Buy | Sell

  function Opposite(side: Side): Side {
    match side
    case Buy => Sell
    case Sell => Buy
  }

  datatype OrderType = Market | Limit

  datatype Position = Position(symbol: string, side: Side, quantity: real, entry: real, stopLoss: Option<real>)
}
