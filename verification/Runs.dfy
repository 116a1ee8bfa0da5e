/** The states a run of the stack machine goes through. */
module Runs {
  import opened Words
  import opened Wrappers
  import opened Machine
  import opened D = Decoder

  /** The state after k steps, if the run goes on that long. */
  ghost function StateAfter(env: Env, depth: u32, m: State, k: nat): (r: Option<State>)
    requires m.Ok()
    ensures r.Some? ==> r.value.Ok()
  {
    hide Step;
    if k == 0 then Some(m)
    else match StateAfter(env, depth, m, k - 1)
      case None => None
      case Some(m1) =>
        match Step(env, depth, m1)
        case Next(m2) => Some(m2)
        case _ => None
  }

  /** The instruction about to be executed. */
  function Current(env: Env, m: State): Option<Op> {
    match Decode(env.prog, m.pc)
    case None => None
    case Some((op, _)) => Some(op)
  }

  /** The state with the pc behind that instruction, as the instruction sees it. */
  function Fetched(env: Env, m: State): State {
    match Decode(env.prog, m.pc)
    case None => m
    case Some((_, next)) => m.(pc := next)
  }

  lemma StepExecutes(env: Env, depth: u32, m: State)
    requires m.Ok() && Current(env, m).Some?
    ensures Fetched(env, m).Ok()
    ensures Step(env, depth, m) == Exec(env, depth, Fetched(env, m), Current(env, m).value)
  {
    hide Exec, Decode;
  }

  /** A run that goes on for k steps from a state that it reaches in j goes on for j + k. */
  lemma {:induction false} StatesCompose(env: Env, depth: u32, m: State, j: nat, m1: State, k: nat)
    requires m.Ok() && StateAfter(env, depth, m, j) == Some(m1)
    ensures StateAfter(env, depth, m, j + k) == StateAfter(env, depth, m1, k)
    decreases k
  {
    hide Step;
    if k > 0 { StatesCompose(env, depth, m, j, m1, k - 1); }
  }

  /** A run with enough fuel ends as it does from the state after k steps. */
  lemma {:induction false} IterateSkips(env: Env, depth: u32, m: State, k: nat, fuel: nat)
    requires m.Ok() && StateAfter(env, depth, m, k).Some? && k <= fuel
    ensures Iterate(env, depth, m, fuel) == Iterate(env, depth, StateAfter(env, depth, m, k).value, fuel - k)
    decreases k
  {
    hide Step;
    if k > 0 {
      IterateSkips(env, depth, m, k - 1, fuel);
    }
  }
}
