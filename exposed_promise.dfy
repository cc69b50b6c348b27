/** The deferred-result cell of packages/exposed-promise: a promise whose
    resolve/reject functions and status are exposed to the creator. The
    status starts pending and is fixed by the first settle call; the value
    or reason of the underlying promise is fixed by that same call. */
module ExposedPromises {

  datatype Status = Pending | Fulfilled | Rejected

  /** The observable state of the cell: its status together with the value
      (on fulfilment) or reason (on rejection) the promise settled with. */
  datatype State<T, E> = Unsettled | Value(value: T) | Reason(reason: E) {
    function Status(): Status {
      match this
      case Unsettled => Pending
      case Value(_) => Fulfilled
      case Reason(_) => Rejected
    }
  }

  /** A settle call made on the cell: `resolve(v)` or `reject(e)`. */
  datatype Settle<T, E> = Resolve(value: T) | Reject(reason: E)

  /** The state after one settle call: a pending cell takes the call's
      outcome, a settled cell ignores it. */
  function Apply<T, E>(s: State<T, E>, call: Settle<T, E>): (r: State<T, E>)
    ensures s.Status() != Pending ==> r == s
    ensures s.Status() == Pending && call.Resolve? ==> r == Value(call.value)
    ensures s.Status() == Pending && call.Reject? ==> r == Reason(call.reason)
  {
    if !s.Unsettled? then s
    else match call
      case Resolve(v) => Value(v)
      case Reject(e) => Reason(e)
  }

  /** The state after a sequence of settle calls, in order. */
  function Replay<T, E>(s: State<T, E>, calls: seq<Settle<T, E>>): State<T, E>
    decreases |calls|
  {
    if calls == [] then s else Replay(Apply(s, calls[0]), calls[1..])
  }

  /** Once settled, no sequence of later settle calls changes the state. */
  lemma {:induction false} SettledIsFinal<T, E>(s: State<T, E>, calls: seq<Settle<T, E>>)
    requires s.Status() != Pending
    ensures Replay(s, calls) == s
    decreases |calls|
  {
    if calls != [] {
      SettledIsFinal(Apply(s, calls[0]), calls[1..]);
    }
  }

  /** The first settle call on a pending cell decides its outcome; every
      later call is a no-op. In particular `reject` then `resolve` leaves
      the cell rejected. */
  lemma {:induction false} FirstCallDecides<T, E>(calls: seq<Settle<T, E>>)
    requires |calls| > 0
    ensures Replay(Unsettled, calls) == Apply(Unsettled, calls[0])
    ensures calls[0].Reject? ==> Replay(Unsettled, calls).Status() == Rejected
    ensures calls[0].Resolve? ==> Replay(Unsettled, calls).Status() == Fulfilled
  {
    SettledIsFinal(Apply(Unsettled, calls[0]), calls[1..]);
  }

  /** The cell returned by `exposedPromise()`. */
  class ExposedPromise<T, E> {
    var state: State<T, E>

    /** A new cell is pending. */
    constructor ()
      ensures state == Unsettled && state.Status() == Pending
    {
      state := Unsettled;
    }

    function Status(): Status
      reads this
    {
      state.Status()
    }

    /** `resolve(v)`: fulfils a pending cell with `v`; no effect otherwise. */
    method Resolve(v: T)
      modifies this
      ensures state == Apply(old(state), Settle.Resolve(v))
      ensures old(state).Status() == Pending ==> state == Value(v)
      ensures old(state).Status() != Pending ==> state == old(state)
    {
      if state.Unsettled? {
        state := Value(v);
      }
    }

    /** `reject(e)`: rejects a pending cell with `e`; no effect otherwise. */
    method Reject(e: E)
      modifies this
      ensures state == Apply(old(state), Settle.Reject(e))
      ensures old(state).Status() == Pending ==> state == Reason(e)
      ensures old(state).Status() != Pending ==> state == old(state)
    {
      if state.Unsettled? {
        state := Reason(e);
      }
    }
  }

  /** The two cases of the source's test: resolving a new cell fulfils it;
      rejecting and then resolving leaves it rejected. */
  method ResolveAfterReject() returns (fulfilled: Status, rejected: Status)
    ensures fulfilled == Fulfilled && rejected == Rejected
  {
    var a := new ExposedPromise<bool, ()>();
    a.Resolve(true);
    fulfilled := a.Status();
    var b := new ExposedPromise<string, ()>();
    b.Reject(());
    b.Resolve("weird");
    rejected := b.Status();
  }
}
