/** `Context.findActivity()`: walk the `baseContext` links of a chain of
    context wrappers and return the first activity met. */
module ContextChain {
  import opened Wrappers

  /** A context: either one that wraps a base context (and may itself be a
      `ComponentActivity`, which is always a wrapper), or one that is not a
      wrapper and so ends the chain. */
  datatype Context = Plain | Wrapper(isActivity: bool, base: Context)

  /** The `IllegalStateException` thrown when no activity is found. */
  datatype FindError = IllegalState

  predicate IsActivity(c: Context)
  {
    c.Wrapper? && c.isActivity
  }

  /** The number of `baseContext` links from `c` to the end of its chain. */
  function Depth(c: Context): nat
  {
    match c
    case Plain => 0
    case Wrapper(_, b) => 1 + Depth(b)
  }

  /** The nodes met following `baseContext` from `c`, `c` first, ending
      with the first non-wrapper. */
  function Chain(c: Context): (nodes: seq<Context>)
    ensures |nodes| == Depth(c) + 1
    ensures nodes[0] == c
    ensures nodes[|nodes| - 1].Plain?
    ensures forall i :: 0 <= i < |nodes| - 1 ==> nodes[i].Wrapper? && nodes[i + 1] == nodes[i].base
  {
    match c
    case Plain => [c]
    case Wrapper(_, b) => [c] + Chain(b)
  }

  /** The position of the first activity in a sequence of contexts. */
  function FirstActivityIndex(nodes: seq<Context>): (k: Option<nat>)
    ensures k.Some? ==> k.value < |nodes| && IsActivity(nodes[k.value])
                        && forall j :: 0 <= j < k.value ==> !IsActivity(nodes[j])
    ensures k.None? ==> forall j :: 0 <= j < |nodes| ==> !IsActivity(nodes[j])
  {
    if |nodes| == 0 then None
    else if IsActivity(nodes[0]) then Some(0)
    else match FirstActivityIndex(nodes[1..])
      case None => None
      case Some(k) => Some(k + 1)
  }

  /** `findActivity` as a recursive search: the activity found is an
      activity, and a receiver that is not a wrapper fails at once. */
  function FindActivity(c: Context): (r: Result<Context, FindError>)
    ensures r.Success? ==> IsActivity(r.value)
    ensures c.Plain? ==> r == Failure(IllegalState)
  {
    match c
    case Plain => Failure(IllegalState)
    case Wrapper(isActivity, b) => if isActivity then Success(c) else FindActivity(b)
  }

  /** The search returns the first activity on the chain, counting the
      receiver, and fails exactly when the chain holds none. */
  lemma {:induction false} FindActivityIsFirstOnChain(c: Context)
    ensures match FirstActivityIndex(Chain(c))
            case Some(k) => FindActivity(c) == Success(Chain(c)[k])
            case None => FindActivity(c) == Failure(IllegalState)
  {
    match c
    case Plain =>
    case Wrapper(isActivity, b) =>
      if !isActivity {
        assert Chain(c)[1..] == Chain(b);
        FindActivityIsFirstOnChain(b);
      }
  }

  /** The loop of `findActivity`: while the context is a wrapper, return it
      if it is an activity, otherwise follow `baseContext`; then throw. The
      walk stays on the receiver's chain and shortens it at every step. */
  method FindActivityLoop(c: Context) returns (r: Result<Context, FindError>, ghost visited: nat)
    ensures r == FindActivity(c)
    ensures r.Success? ==> IsActivity(r.value) && r.value in Chain(c)
    ensures visited < |Chain(c)|
  {
    var context := c;
    visited := 0;
    while context.Wrapper?
      invariant visited < |Chain(c)| && Chain(c)[visited] == context
      invariant FindActivity(context) == FindActivity(c)
      decreases Depth(context)
    {
      if context.isActivity {
        return Success(context), visited;
      }
      context := context.base;
      visited := visited + 1;
    }
    return Failure(IllegalState), visited;
  }
}
