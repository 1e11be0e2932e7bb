/** What every part of the client shares. */
module Common {

  datatype Option<+T> = None | Some(value: T)

  /** The board has 25 tiles. */
  const GRID: nat := 25
}
