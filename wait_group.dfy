/** packages/wait-group: a counter of outstanding operations and the list of
    callers waiting for it to come back to zero. A waiter is the resolve side
    of an exposed promise; a wait with a timeout also arms a timer, whose
    firing is the separate step `TimeoutFired`. */
module WaitGroups {
  import opened ExposedPromises

  datatype WaitGroupError =
    | UnexpectedDone          // `done` called with the counter already at zero
    | WaitGroupTimeoutExceeded

  type Waiter = ExposedPromise<(), WaitGroupError>

  /** Outcome of `done`. */
  datatype DoneResult = DoneOk | DoneFailed(error: WaitGroupError)

  /** Outcome of `wait`: an already-resolved promise, or a registered waiter
      (and whether a timeout timer was armed for it). */
  datatype WaitResult = Immediate | Suspended(waiter: Waiter, timerArmed: bool)

  /** `s` with every occurrence of `w` removed (the source's
      `filter(x => x !== w)`). */
  function Without<X(==)>(s: seq<X>, w: X): (r: seq<X>)
    ensures forall i :: 0 <= i < |r| ==> r[i] in s && r[i] != w
    ensures w !in s ==> r == s
    ensures |r| <= |s|
  {
    if s == [] then []
    else if s[0] == w then Without(s[1..], w)
    else [s[0]] + Without(s[1..], w)
  }

  /** Every element other than `w` survives the removal. */
  lemma {:induction false} WithoutKeepsOthers<X>(s: seq<X>, w: X)
    ensures forall i :: 0 <= i < |s| && s[i] != w ==> s[i] in Without(s, w)
  {
    if s != [] {
      var t := s[1..];
      WithoutKeepsOthers(t, w);
      forall i | 0 <= i < |s| && s[i] != w ensures s[i] in Without(s, w) {
        if i > 0 {
          assert s[i] == t[i - 1];
        }
      }
    }
  }

  /** When `s[k]` occurs only once, removing it takes out exactly position
      `k` and keeps every other element in its order. */
  lemma {:induction false} WithoutAt<X>(s: seq<X>, k: nat)
    requires k < |s|
    requires forall i :: 0 <= i < |s| && i != k ==> s[i] != s[k]
    ensures Without(s, s[k]) == s[..k] + s[k + 1..]
  {
    var t := s[1..];
    if k == 0 {
      assert s[0] !in t by {
        forall i | 0 <= i < |t| ensures t[i] != s[0] {
          assert t[i] == s[i + 1];
        }
      }
      assert Without(s, s[0]) == Without(t, s[0]);
    } else {
      assert s[0] != s[k];
      assert t[k - 1] == s[k];
      forall i | 0 <= i < |t| && i != k - 1 ensures t[i] != t[k - 1] {
        assert t[i] == s[i + 1];
      }
      WithoutAt(t, k - 1);
      assert Without(s, s[k]) == [s[0]] + Without(t, t[k - 1]);
      assert s[..k] == [s[0]] + t[..k - 1];
      assert s[k + 1..] == t[k..];
    }
  }

  /** No element occurs twice. */
  ghost predicate Distinct<X>(s: seq<X>) {
    forall i, j :: 0 <= i < j < |s| ==> s[i] != s[j]
  }

  /** Removing an element from a list without repetitions leaves a list
      without repetitions. */
  lemma {:induction false} WithoutDistinct<X>(s: seq<X>, w: X)
    requires Distinct(s)
    ensures Distinct(Without(s, w))
  {
    if s != [] {
      var t := s[1..];
      assert Distinct(t) by {
        forall i, j | 0 <= i < j < |t| ensures t[i] != t[j] {
          assert t[i] == s[i + 1] && t[j] == s[j + 1];
        }
      }
      WithoutDistinct(t, w);
      if s[0] != w {
        var r := Without(t, w);
        assert s[0] !in r by {
          forall i | 0 <= i < |r| ensures r[i] != s[0] {
            var m :| 0 <= m < |t| && t[m] == r[i];
            assert t[m] == s[m + 1];
          }
        }
      }
    }
  }

  class WaitGroup {
    var counter: int
    var waiters: seq<Waiter>

    constructor ()
      ensures counter == 0 && waiters == []
    {
      counter := 0;
      waiters := [];
    }

    /** `add(i)`: increases the counter by exactly `i` (the source does not
        reject a negative `i`). */
    method Add(i: int)
      modifies this
      ensures counter == old(counter) + i
      ensures waiters == old(waiters)
    {
      counter := counter + i;
    }

    /** `done()`: fails at zero without any change; otherwise decrements,
        and when that reaches zero resolves every registered waiter once and
        empties the list. */
    method Done() returns (r: DoneResult)
      modifies this, waiters
      ensures old(counter) == 0 ==> r == DoneFailed(UnexpectedDone) && counter == 0 && waiters == old(waiters)
      ensures old(counter) != 0 ==> r == DoneOk && counter == old(counter) - 1
      ensures old(counter) != 1 ==> waiters == old(waiters)
      ensures old(counter) == 1 ==> waiters == []
      ensures forall w :: w in old(waiters) ==>
        w.state == if old(counter) == 1 then Apply(old(w.state), Settle.Resolve(())) else old(w.state)
    {
      if counter == 0 {
        return DoneFailed(UnexpectedDone);
      }
      counter := counter - 1;
      r := DoneOk;
      if counter == 0 {
        var ws := waiters;
        var i := 0;
        while i < |ws|
          invariant 0 <= i <= |ws|
          invariant counter == 0 && waiters == ws
          invariant forall w :: w in ws ==>
            w.state == if w in ws[..i] then Apply(old(w.state), Settle.Resolve(())) else old(w.state)
        {
          ws[i].Resolve(());
          assert ws[..i + 1] == ws[..i] + [ws[i]];
          i := i + 1;
        }
        assert ws[..i] == ws;
        waiters := [];
      }
    }

    /** `wait(timeout)`: returns at once when the counter is zero; otherwise
        appends one fresh pending waiter, arming a timer iff `timeout > -1`. */
    method Wait(timeout: int) returns (r: WaitResult)
      modifies this
      ensures counter == old(counter)
      ensures old(counter) == 0 ==> r == Immediate && waiters == old(waiters)
      ensures old(counter) != 0 ==>
        && r.Suspended? && fresh(r.waiter) && r.waiter.state == Unsettled
        && r.timerArmed == (timeout > -1) && waiters == old(waiters) + [r.waiter]
    {
      if counter == 0 {
        return Immediate;
      }
      var w := new ExposedPromise<(), WaitGroupError>();
      waiters := waiters + [w];
      r := Suspended(w, timeout > -1);
    }

    /** The timer armed by `wait` fires: only that waiter leaves the list and
        is rejected; the counter and every other waiter stay as they were. */
    method TimeoutFired(w: Waiter)
      modifies this, w
      ensures counter == old(counter)
      ensures waiters == Without(old(waiters), w)
      ensures w.state == Apply(old(w.state), Settle.Reject(WaitGroupTimeoutExceeded))
    {
      waiters := Without(waiters, w);
      w.Reject(WaitGroupTimeoutExceeded);
    }
  }

  /** The source's timeout test, in its order: with the counter at one, a
      `wait(0)` is rejected when its timer fires; a `wait(50)` made after
      that resolves when `done` brings the counter to zero. */
  method ShortWaitTimesOutLongWaitResolves() returns (first: Status, second: Status)
    ensures first == Rejected && second == Fulfilled
  {
    var wg := new WaitGroup();
    wg.Add(1);
    var a := wg.Wait(0);
    assert wg.waiters == [a.waiter];
    wg.TimeoutFired(a.waiter);
    assert wg.waiters == [];
    var b := wg.Wait(50);
    var d := wg.Done();
    first := a.waiter.Status();
    second := b.waiter.Status();
  }
}
