/** Device filters (`src/actions/filter.rs`; `src/actions.rs` declares the same
    trait, no-op filter and closure filter a second time). A filter is called
    through `&mut self`; the model makes that state visible as a per-closure
    call counter, so a call returns its verdict and the filter as it is
    afterwards. */
module Filters {
  import opened Devices

  datatype Filter =
    | NoOp
    | Closure(pred: Device -> bool, calls: nat)
    | Chain(first: Filter, second: Filter)

  /** One call of `Filter::filter`. */
  function Call(f: Filter, d: Device): (r: (bool, Filter))
    ensures Erase(r.1) == Erase(f)
    ensures Invocations(f) <= Invocations(r.1)
  {
    match f
    case NoOp => (true, NoOp)
    case Closure(p, n) => (p(d), Closure(p, n + 1))
    case Chain(a, b) =>
      var (ra, a') := Call(a, d);
      if !ra then (false, Chain(a', b))
      else
        var (rb, b') := Call(b, d);
        (rb, Chain(a', b'))
  }

  /** `FilterExt::chain`. */
  function ChainWith(first: Filter, next: Filter): (r: Filter)
    ensures forall d :: Accepts(r, d) <==> Accepts(first, d) && Accepts(next, d)
    ensures Invocations(r) == Invocations(first) + Invocations(next)
  {
    Chain(first, next)
  }

  /** The filter with every call counter reset: what it decides, without its history. */
  function Erase(f: Filter): Filter {
    match f
    case NoOp => NoOp
    case Closure(p, _) => Closure(p, 0)
    case Chain(a, b) => Chain(Erase(a), Erase(b))
  }

  /** The number of closure calls a filter has made so far. */
  function Invocations(f: Filter): nat {
    match f
    case NoOp => 0
    case Closure(_, n) => n
    case Chain(a, b) => Invocations(a) + Invocations(b)
  }

  /** The selection a filter denotes: every wrapped predicate holds. */
  predicate Accepts(f: Filter, d: Device) {
    match f
    case NoOp => true
    case Closure(p, _) => p(d)
    case Chain(a, b) => Accepts(a, d) && Accepts(b, d)
  }

  /** A call answers exactly what the filter denotes, whatever its history. */
  lemma {:induction false} CallDecidesAccepts(f: Filter, d: Device)
    ensures Call(f, d).0 == Accepts(f, d)
  {
    match f
    case NoOp =>
    case Closure(_, _) =>
    case Chain(a, b) =>
      CallDecidesAccepts(a, d);
      CallDecidesAccepts(b, d);
  }

  /** Two filters that differ only in their counters give the same verdict. */
  lemma {:induction false} VerdictIgnoresHistory(f: Filter, g: Filter, d: Device)
    requires Erase(f) == Erase(g)
    ensures Call(f, d).0 == Call(g, d).0
  {
    match f
    case NoOp =>
    case Closure(_, _) =>
    case Chain(a, b) =>
      VerdictIgnoresHistory(a, g.first, d);
      VerdictIgnoresHistory(b, g.second, d);
  }

  lemma NoOpAcceptsAll(d: Device)
    ensures Call(NoOp, d) == (true, NoOp)
  {
  }

  lemma ClosureForwards(p: Device -> bool, n: nat, d: Device)
    ensures Call(Closure(p, n), d) == (p(d), Closure(p, n + 1))
  {
  }

  /** `chain(a, b)` selects a device iff both `a` and `b` select it. */
  lemma ChainIsConjunction(a: Filter, b: Filter, d: Device)
    ensures Call(ChainWith(a, b), d).0 == (Accepts(a, d) && Accepts(b, d))
  {
    CallDecidesAccepts(ChainWith(a, b), d);
  }

  /** When the first filter rejects, the second is not called: its counters do not move. */
  lemma ChainShortCircuits(a: Filter, b: Filter, d: Device)
    ensures !Call(a, d).0 ==> Call(ChainWith(a, b), d).1.second == b
    ensures !Call(a, d).0 ==> Invocations(Call(ChainWith(a, b), d).1) == Invocations(Call(a, d).1) + Invocations(b)
    ensures Call(a, d).0 ==> Call(ChainWith(a, b), d).1.second == Call(b, d).1
  {
  }

  /** Chaining is associative: same verdict, and the same closures called the same number of times. */
  lemma ChainAssociative(a: Filter, b: Filter, c: Filter, d: Device)
    ensures var (r1, f1) := Call(ChainWith(ChainWith(a, b), c), d);
            var (r2, f2) := Call(ChainWith(a, ChainWith(b, c)), d);
            && r1 == r2
            && f1.first.first == f2.first
            && f1.first.second == f2.second.first
            && f1.second == f2.second.second
  {
  }

  /** The no-op filter is a left and a right identity of chaining. */
  lemma NoOpIsIdentity(f: Filter, d: Device)
    ensures Call(ChainWith(NoOp, f), d).0 == Call(f, d).0
    ensures Call(ChainWith(NoOp, f), d).1.second == Call(f, d).1
    ensures Call(ChainWith(f, NoOp), d).0 == Call(f, d).0
    ensures Call(ChainWith(f, NoOp), d).1.first == Call(f, d).1
  {
  }
}
