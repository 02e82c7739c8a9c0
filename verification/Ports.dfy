/** The port allocator of internal/surge/ports.go and internal/surge/install.go.  Whether a
    port can be bound is a predicate given from outside, fixed during one call. */
module Ports {
  import opened Text

  const MAX_PORT := 65535

  predicate IsPort(p: int) {
    0 < p <= MAX_PORT
  }

  predicate Usable(p: int, used: set<int>, reusable: set<int>, available: int -> bool) {
    p !in used && (p in reusable || available(p))
  }

  /** The usable ports from `from` on, in ascending order. */
  function UsablePorts(from: int, used: set<int>, reusable: set<int>, available: int -> bool): seq<int>
    decreases MAX_PORT + 1 - from
  {
    if from > MAX_PORT then []
    else if Usable(from, used, reusable, available) then [from] + UsablePorts(from + 1, used, reusable, available)
    else UsablePorts(from + 1, used, reusable, available)
  }

  /** Strictly ascending, and exactly the usable ports: the k-th element is the k-th smallest. */
  lemma {:induction false} UsablePortsExact(from: int, used: set<int>, reusable: set<int>, available: int -> bool)
    ensures var ps := UsablePorts(from, used, reusable, available);
      && (forall i, j | 0 <= i < j < |ps| :: ps[i] < ps[j])
      && (forall p :: p in ps <==> from <= p <= MAX_PORT && Usable(p, used, reusable, available))
    decreases MAX_PORT + 1 - from
  {
    if from <= MAX_PORT {
      UsablePortsExact(from + 1, used, reusable, available);
      var ps, rest := UsablePorts(from, used, reusable, available), UsablePorts(from + 1, used, reusable, available);
      forall i, j | 0 <= i < j < |ps| ensures ps[i] < ps[j] {
        assert ps[j] in rest || ps != [from] + rest;
      }
    }
  }

  lemma {:induction false} UsableHead(from: int, used: set<int>, reusable: set<int>, available: int -> bool)
    requires UsablePorts(from, used, reusable, available) != []
    ensures var p := UsablePorts(from, used, reusable, available)[0];
      from <= p <= MAX_PORT && Usable(p, used, reusable, available)
    decreases MAX_PORT + 1 - from
  {
    if !Usable(from, used, reusable, available) {
      UsableHead(from + 1, used, reusable, available);
    }
  }

  /** findAvailablePort as a function; None is its error. */
  function FindPort(start: int, used: set<int>, reusable: set<int>, available: int -> bool): (r: Option<int>)
    ensures r.Some? ==> start <= r.value && IsPort(r.value) && Usable(r.value, used, reusable, available)
  {
    if start > 0 && UsablePorts(start, used, reusable, available) != [] then
      UsableHead(start, used, reusable, available);
      Some(UsablePorts(start, used, reusable, available)[0])
    else None
  }

  /** findAvailablePort: a counting loop */
  method FindAvailablePort(start: int, used: set<int>, reusable: set<int>, available: int -> bool)
    returns (r: Option<int>)
    ensures r == FindPort(start, used, reusable, available)
    ensures r.Some? ==> start <= r.value <= MAX_PORT && Usable(r.value, used, reusable, available)
    ensures r.Some? ==> forall p | start <= p < r.value :: !Usable(p, used, reusable, available)
    ensures r.None? && start > 0 ==> forall p | start <= p <= MAX_PORT :: !Usable(p, used, reusable, available)
  {
    if start <= 0 || start > MAX_PORT {
      return None;
    }
    var port := start;
    while port <= MAX_PORT
      invariant start <= port <= MAX_PORT + 1
      invariant UsablePorts(start, used, reusable, available) == UsablePorts(port, used, reusable, available)
      invariant forall p | start <= p < port :: !Usable(p, used, reusable, available)
    {
      if port in used {
        port := port + 1;
        continue;
      }
      if port in reusable || available(port) {
        return Some(port);
      }
      port := port + 1;
    }
    return None;
  }

  lemma HasMember(s: set<int>)
    requires s != {}
    ensures exists p :: p in s
  {
    if forall p :: p !in s {
      assert false;
    }
  }

  /** subtractPorts: a map filled in a loop over another, in any order. */
  method SubtractPorts(all: set<int>, reserved: set<int>) returns (out: set<int>)
    ensures out == all - reserved
  {
    out := {};
    var rest := all;
    while rest != {}
      invariant rest <= all && out == (all - rest) - reserved
      decreases |rest|
    {
      HasMember(rest);
      var p: int :| p in rest;
      if p !in reserved {
        out := out + {p};
      }
      rest := rest - {p};
    }
  }

  /** The allocation loop of install: every port found is marked used, and the search goes on
      above it.  None is the error "no available local port". */
  function Allocate(n: nat, next: int, used: set<int>, reusable: set<int>, available: int -> bool)
    : Option<seq<int>>
  {
    if n == 0 then Some([])
    else
      match FindPort(next, used, reusable, available)
      case None => None
      case Some(p) =>
        match Allocate(n - 1, p + 1, used + {p}, reusable, available)
        case None => None
        case Some(ps) => Some([p] + ps)
  }

  /** Marking a port below `from` as used does not matter. */
  lemma {:induction false} UsedBelow(from: int, p: int, used: set<int>, reusable: set<int>, available: int -> bool)
    requires p < from
    ensures UsablePorts(from, used + {p}, reusable, available) == UsablePorts(from, used, reusable, available)
    decreases MAX_PORT + 1 - from
  {
    if from <= MAX_PORT {
      UsedBelow(from + 1, p, used, reusable, available);
    }
  }

  lemma {:induction false} UsableTail(from: int, used: set<int>, reusable: set<int>, available: int -> bool)
    requires UsablePorts(from, used, reusable, available) != []
    ensures var ps := UsablePorts(from, used, reusable, available);
      from <= ps[0] <= MAX_PORT && ps[1..] == UsablePorts(ps[0] + 1, used, reusable, available)
    decreases MAX_PORT + 1 - from
  {
    if !Usable(from, used, reusable, available) {
      UsableTail(from + 1, used, reusable, available);
    }
  }

  /** The greedy loop hands out the first n usable ports from the base on, and fails exactly
      when there are fewer, also when the last port found was 65535. */
  lemma {:induction false} AllocateExact(n: nat, next: int, used: set<int>, reusable: set<int>, available: int -> bool)
    requires next > 0
    ensures var ps := UsablePorts(next, used, reusable, available);
      Allocate(n, next, used, reusable, available) == if n <= |ps| then Some(ps[..n]) else None
  {
    var ps := UsablePorts(next, used, reusable, available);
    if n > 0 && ps != [] {
      UsableTail(next, used, reusable, available);
      var p := ps[0];
      UsedBelow(p + 1, p, used, reusable, available);
      AllocateExact(n - 1, p + 1, used + {p}, reusable, available);
      assert n <= |ps| ==> ps[..n] == [p] + ps[1..][..n - 1];
    }
  }
}
