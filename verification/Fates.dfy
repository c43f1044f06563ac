/** How a call to a store or a log ends. */
module Fates {
  /** Well, with an error and no effect, or with an error after taking effect. */
  datatype Fate = Fine | Fails | Lands
}
