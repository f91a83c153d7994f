/** The `continuation_context` pair reduced to what the rendezvous relies on:
    which of its two sides is executing. `resume()` is called on the caller
    side and transfers control into the callee (the task's own stack);
    `suspend()` is called on the callee side and transfers control back. The
    stack switch itself (Boost.Context) is not modelled. */
module Continuation {
  import opened Options

  /** The side that is executing. Having one value of this type per pair is
      what "exactly one side is live" means. */
  datatype Side = CallerSide | CalleeSide

  datatype Switch = Resume | Suspend

  function Other(s: Side): Side {
    if s == CallerSide then CalleeSide else CallerSide
  }

  /** The side a switch is issued from: `resume()` from the caller side,
      `suspend()` from the callee side. */
  function IssuedFrom(op: Switch): Side {
    if op == Resume then CallerSide else CalleeSide
  }

  /** Performs one switch. A switch issued from the side that is not live is
      undefined behaviour in the library and yields `None` here. */
  function Apply(live: Side, op: Switch): (r: Option<Side>)
    ensures r.Some? <==> live == IssuedFrom(op)
    ensures r.Some? ==> r.value != live
    ensures op == Resume && r.Some? ==> r.value == CalleeSide
    ensures op == Suspend && r.Some? ==> r.value == CallerSide
  {
    match op
    case Resume => if live == CallerSide then Some(CalleeSide) else None
    case Suspend => if live == CalleeSide then Some(CallerSide) else None
  }

  /** Performs a sequence of switches, failing at the first ill-issued one. */
  function Run(live: Side, ops: seq<Switch>): Option<Side>
    decreases |ops|
  {
    if |ops| == 0 then Some(live)
    else match Apply(live, ops[0])
      case None => None
      case Some(next) => Run(next, ops[1..])
  }

  /** The switches alternate, the first one being issued from `start`. */
  predicate Alternating(start: Side, ops: seq<Switch>) {
    forall i :: 0 <= i < |ops| ==>
      IssuedFrom(ops[i]) == (if i % 2 == 0 then start else Other(start))
  }

  /** A sequence of switches is well issued exactly when it alternates, and it
      then ends on the starting side after an even number of switches and on
      the other side after an odd number. */
  lemma {:induction false} RunAlternates(start: Side, ops: seq<Switch>)
    ensures Run(start, ops).Some? <==> Alternating(start, ops)
    ensures Run(start, ops).Some? ==>
      Run(start, ops).value == (if |ops| % 2 == 0 then start else Other(start))
    decreases |ops|
  {
    if |ops| > 0 {
      var next := Other(start);
      RunAlternates(next, ops[1..]);
      if Apply(start, ops[0]).Some? {
        assert Run(start, ops) == Run(next, ops[1..]);
        if Alternating(next, ops[1..]) {
          forall i | 0 <= i < |ops|
            ensures IssuedFrom(ops[i]) == (if i % 2 == 0 then start else Other(start))
          {
            if i > 0 {
              assert ops[i] == ops[1..][i - 1];
            }
          }
        }
        if Alternating(start, ops) {
          forall i | 0 <= i < |ops[1..]|
            ensures IssuedFrom(ops[1..][i]) == (if i % 2 == 0 then next else Other(next))
          {
            assert ops[1..][i] == ops[i + 1];
          }
        }
      } else {
        assert !Alternating(start, ops) by {
          assert IssuedFrom(ops[0]) != start;
        }
      }
    }
  }

  /** `resume()` followed by `suspend()` returns control to the caller. */
  lemma ResumeThenSuspendReturnsToCaller()
    ensures Run(CallerSide, [Resume, Suspend]) == Some(CallerSide)
    ensures Run(CallerSide, [Suspend]).None?
    ensures Run(CalleeSide, [Resume]).None?
  {
  }
}
