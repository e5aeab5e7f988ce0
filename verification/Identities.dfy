/** Identities that are only ever compared. */
module Identities {
  type ID = nat

  /** Stands for the empty string. */
  const NO_ID: ID := 0
}
