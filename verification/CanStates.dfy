/** The states of the CAN controller that the driver uses, in the order of enum can_state. */
module CanStates {
  const ERROR_ACTIVE: nat := 0
  const ERROR_PASSIVE: nat := 2
  const BUS_OFF: nat := 3
  const STOPPED: nat := 4
  const SLEEPING: nat := 5
}
