/** Admission units of the parallel check: what `build_graph` produces and the scheduler consumes. */
module Tasks {
  import opened Digraph

  // A name's raw bits; equality of names is equality of bits.
  type Name = nat

  datatype TaskKind =
    | Simple(name: Name)
    | InductiveBlock(members: seq<Name>, ctors: seq<Name>)
    | Quot(names: seq<Name>, eq: Name)

  datatype Task = Task(id: nat, kind: TaskKind, admits: seq<Name>, deps: seq<nat>)

  // Units of the sequential replay: one per declaration sent to the kernel.
  function CheckedCount(kind: TaskKind): nat {
    match kind
    case Simple(_) => 1
    case InductiveBlock(_, _) => 1
    case Quot(names, _) => |names|
  }

  function DepsOf(ts: seq<Task>): (g: Graph)
    ensures |g| == |ts| && forall i :: 0 <= i < |ts| ==> g[i] == ts[i].deps
  {
    seq(|ts|, i requires 0 <= i < |ts| => ts[i].deps)
  }
}
