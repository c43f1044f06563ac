/** Identifiers as the source prints them. */
module Uuids {
  type Id = string

  /** The printed form has 36 characters. */
  const UUID_LENGTH := 36

  const NIL_ID: Id := "00000000-0000-0000-0000-000000000000"

  /** The nil id is all zeros, in groups of eight, four, four, four and twelve. */
  lemma NilIsAllZeros(i: nat)
    requires i < |NIL_ID|
    ensures |NIL_ID| == 36 && NIL_ID[i] == if i in {8, 13, 18, 23} then '-' else '0'
  {
  }
}
