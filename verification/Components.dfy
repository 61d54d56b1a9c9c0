// The states of a component (src/c/component.c) that the thread pool and the scheduler block on.
module Components {
  datatype Mode = Initial | Stopped | Starting | Running | Deleted

  /** iot_component_set_state: a deleted component stays deleted, a running one has to be stopped before it
      can be deleted. */
  predicate Allowed(from: Mode, to: Mode) {
    match to
    case Initial => false
    case Deleted => from != Running
    case _ => from != Deleted
  }
}
