// Runs of any step relation: sequences of states linked by steps, and how to
// extend them.
module Runs {

  /** The states and events of some run from s to z. */
  ghost predicate Path<S(!new), E(!new)>(step: (S, E, S) -> bool, states: seq<S>, events: seq<E>, s: S, z: S) {
    && |states| == |events| + 1 && states[0] == s && states[|events|] == z
    && forall i :: 0 <= i < |events| ==> step(states[i], events[i], states[i + 1])
  }

  /** Some run takes s to z. */
  ghost predicate Leads<S(!new), E(!new)>(step: (S, E, S) -> bool, s: S, z: S) {
    exists states: seq<S>, events: seq<E> :: Path(step, states, events, s, z)
  }

  lemma {:induction false} Stay<S(!new), E(!new)>(step: (S, E, S) -> bool, s: S)
    ensures Leads(step, s, s)
  {
    assert Path(step, [s], [], s, s);
  }

  lemma {:induction false} PathThen<S(!new), E(!new)>(step: (S, E, S) -> bool, states: seq<S>, events: seq<E>,
                                                      s: S, z: S, event: E, next: S)
    requires Path(step, states, events, s, z) && step(z, event, next)
    ensures Path(step, states + [next], events + [event], s, next)
  {
    var t, e := states + [next], events + [event];
    forall i | 0 <= i < |e| ensures step(t[i], e[i], t[i + 1]) {
      if i < |events| { assert step(states[i], events[i], states[i + 1]); }
    }
  }

  /** One more event. */
  lemma {:induction false} LeadsThen<S(!new), E(!new)>(step: (S, E, S) -> bool, s: S, z: S, event: E, next: S)
    requires Leads(step, s, z) && step(z, event, next)
    ensures Leads(step, s, next)
  {
    hide Path;
    var states: seq<S>, events: seq<E> :| Path(step, states, events, s, z);
    PathThen(step, states, events, s, z, event, next);
  }
}
