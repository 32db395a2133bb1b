/** How an external call ends: done, failed without effect, or failed although it took effect. */
module Outcomes {
  datatype Outcome = Done | Failed | Lost
  {
    predicate TakesEffect() { !Failed? }
  }
}
