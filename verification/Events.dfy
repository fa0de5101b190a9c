/** Timed steps: an action and the clock reading it is taken at. */
module Events {
  datatype Event<A> = Event(action: A, now: int)

  /** The clock of a run never goes back. */
  ghost predicate Timely<A>(clock: int, events: seq<Event<A>>) {
    && (forall i :: 0 <= i < |events| ==> clock <= events[i].now)
    && (forall i, j :: 0 <= i < j < |events| ==> events[i].now <= events[j].now)
  }
}
