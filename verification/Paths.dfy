/** Runs with a known end, put together step by step. */
module Paths {
  import opened Wakeup

  /** Runs from `s` to `s'`. */
  ghost predicate Path(s: State, acts: seq<Action>, s': State) {
    Shape(s) && Runs(s, acts) && After(s, acts) == s'
  }

  lemma Stay(s: State)
    requires Shape(s)
    ensures Path(s, [], s)
  {
  }

  lemma Go(s: State, a: Action, s1: State, rest: seq<Action>, s': State)
    requires Shape(s) && Enabled(s, a) && Next(s, a) == s1 && Path(s1, rest, s')
    ensures Path(s, [a] + rest, s')
  {
    hide Next, Enabled;
    Prepend(s, a, rest);
  }

  lemma Then(s: State, a: seq<Action>, s1: State, b: seq<Action>, s': State)
    requires Path(s, a, s1) && Path(s1, b, s')
    ensures Path(s, a + b, s')
  {
    RunsAppend(s, a, b);
  }
}
