/**
 * `useSequentialRequest(requestFn)`: a trigger that cancels the request
 * still in flight, builds a cancelable request around the latest
 * `requestFn`, runs it and, when it settles, empties the slot if that
 * request is still the current one.
 *
 * Time and promises are explicit events: Trigger is one call of the
 * trigger closure up to the point where it returns its promise, Settle is
 * the moment the promise of request `h` settles. A request is named by its
 * handle, its index in `requests`; the handle stands for both the
 * AbortController and the `cancel` function compared in `finally`.
 */
module SequentialRequest {
  import opened Wrappers

  /** Why a promise rejects: the pre-flight cancellation, or whatever `requestFn` rejected with. */
  datatype Error = CanceledError | RequestError(reason: string)

  /** How a promise settles. */
  datatype Outcome<T> = Resolved(value: T) | Rejected(error: Error)

  /**
   * One request built by `buildCancelableFetch`: the `requestFn` it wraps,
   * whether its controller was aborted, whether `run` passed its signal to
   * `requestFn`, and whether its promise has settled.
   */
  datatype Request<F> = Request(requestFn: F, aborted: bool, called: bool, settled: bool)

  /** What the runner does, in order. */
  datatype Event<F> =
    | Cancel(handle: nat)               // `cancel()` of request `handle`: its controller aborts
    | Build(handle: nat, requestFn: F)  // `buildCancelableFetch(requestFn)` creates request `handle`
    | Call(handle: nat, requestFn: F)   // `run` calls `requestFn` with request `handle`'s signal
    | Clear(handle: nat)                // `finally` empties the slot that held request `handle`

  /**
   * The runner's state: `latest` is `requestFnRef.current`, `slot` is
   * `currentRequest.current` (the handle whose `cancel` it holds).
   */
  datatype RunnerState<F> = RunnerState(latest: F, slot: Option<nat>, requests: seq<Request<F>>, log: seq<Event<F>>)

  /** A request that is neither aborted nor settled. */
  predicate Live<F>(r: Request<F>) {
    !r.aborted && !r.settled
  }

  /**
   * The runner's invariant: the slot is empty or holds the newest request,
   * which is live; every other request is aborted or settled; every request
   * has been run.
   */
  ghost predicate Inv<F>(s: RunnerState<F>) {
    && (s.slot.None? || s.slot.value + 1 == |s.requests|)
    && (s.slot.Some? ==> Live(s.requests[s.slot.value]))
    && (forall k :: 0 <= k < |s.requests| && s.slot != Some(k) ==> !Live(s.requests[k]))
    && (forall k :: 0 <= k < |s.requests| ==> s.requests[k].called)
  }

  /** At most one request is live, and it is the one in the slot. */
  lemma AtMostOneLive<F>(s: RunnerState<F>, i: nat, j: nat)
    requires Inv(s) && i < |s.requests| && j < |s.requests|
    requires Live(s.requests[i]) && Live(s.requests[j])
    ensures i == j && s.slot == Some(i)
  {
  }

  /** `useLatest(requestFn)` on a render: the ref now holds the newest `requestFn`. */
  function UseLatestNext<F>(s: RunnerState<F>, requestFn: F): (r: RunnerState<F>)
    ensures r.latest == requestFn && r.slot == s.slot && r.requests == s.requests && r.log == s.log
  {
    s.(latest := requestFn)
  }

  /** `cancel()` of request `h`: its controller aborts; nothing else changes. */
  function CancelNext<F>(s: RunnerState<F>, h: nat): (r: RunnerState<F>)
    requires h < |s.requests|
    ensures |r.requests| == |s.requests| && r.requests[h].aborted
    ensures r.requests[h].(aborted := false) == s.requests[h].(aborted := false)
    ensures forall k :: 0 <= k < |s.requests| && k != h ==> r.requests[k] == s.requests[k]
    ensures r.log == s.log + [Cancel(h)] && r.slot == s.slot && r.latest == s.latest
  {
    s.(requests := s.requests[h := s.requests[h].(aborted := true)], log := s.log + [Cancel(h)])
  }

  /**
   * The executor of `run()` for request `h`: an aborted request is rejected
   * without calling `requestFn`; otherwise `requestFn` is called with the
   * request's own signal.
   */
  function RunNext<F>(s: RunnerState<F>, h: nat): (r: RunnerState<F>)
    requires h < |s.requests|
    ensures s.requests[h].aborted ==> r == s
    ensures !s.requests[h].aborted ==>
      && r.requests == s.requests[h := s.requests[h].(called := true)]
      && r.log == s.log + [Call(h, s.requests[h].requestFn)]
      && r.slot == s.slot && r.latest == s.latest
  {
    if s.requests[h].aborted then s
    else s.(requests := s.requests[h := s.requests[h].(called := true)],
            log := s.log + [Call(h, s.requests[h].requestFn)])
  }

  /**
   * The promise request `h` delivers to its caller: the pre-flight
   * `CanceledError` when `requestFn` was never called, otherwise
   * `requestFn`'s own outcome, unchanged.
   */
  function Delivered<F, T>(s: RunnerState<F>, h: nat, response: Outcome<T>): (r: Outcome<T>)
    requires h < |s.requests|
    ensures s.requests[h].called ==> r == response
    ensures !s.requests[h].called ==> r == Rejected(CanceledError)
  {
    if s.requests[h].called then response else Rejected(CanceledError)
  }

  /**
   * One call of the trigger: cancel the request in the slot, if any; build
   * a request around the latest `requestFn`; put it in the slot; run it.
   * The new request's handle is `|s.requests|`.
   */
  function TriggerNext<F>(s: RunnerState<F>): (r: RunnerState<F>)
    ensures |r.requests| == |s.requests| + 1
  {
    var cancelled := if s.slot.Some? && s.slot.value < |s.requests| then CancelNext(s, s.slot.value) else s;
    var h := |cancelled.requests|;
    var built := cancelled.(requests := cancelled.requests + [Request(s.latest, false, false, false)],
                            log := cancelled.log + [Build(h, s.latest)],
                            slot := Some(h));
    RunNext(built, h)
  }

  /**
   * Request `h` settles; its `finally` empties the slot only if the slot
   * still holds this request's `cancel`.
   */
  function SettleNext<F>(s: RunnerState<F>, h: nat): (r: RunnerState<F>)
    requires h < |s.requests|
    ensures r.requests == s.requests[h := s.requests[h].(settled := true)]
    ensures s.slot == Some(h) ==> r.slot.None? && r.log == s.log + [Clear(h)]
    ensures s.slot != Some(h) ==> r.slot == s.slot && r.log == s.log
    ensures r.latest == s.latest
  {
    var settled := s.(requests := s.requests[h := s.requests[h].(settled := true)]);
    if s.slot == Some(h) then settled.(slot := None, log := s.log + [Clear(h)]) else settled
  }

  /**
   * What a trigger does, stated against the state before it: exactly one
   * `cancel`, of the request in the slot, when the slot is full and none when
   * it is empty, before the build; the new request wraps the latest
   * `requestFn`, occupies the slot and is called with its own signal (the
   * pre-flight check never rejects it, its controller is fresh); the older
   * requests are untouched apart from the abort.
   */
  lemma TriggerSteps<F>(s: RunnerState<F>)
    requires Inv(s)
    ensures var r := TriggerNext(s); var h := |s.requests|;
      && r.slot == Some(h)
      && r.requests[h] == Request(s.latest, false, true, false)
      && r.log == s.log + (if s.slot.Some? then [Cancel(s.slot.value)] else []) + [Build(h, s.latest), Call(h, s.latest)]
      && (forall k :: 0 <= k < h && s.slot != Some(k) ==> r.requests[k] == s.requests[k])
      && (s.slot.Some? ==> r.requests[s.slot.value] == s.requests[s.slot.value].(aborted := true))
      && r.latest == s.latest
  {
  }

  /** A trigger keeps the invariant. */
  lemma TriggerKeepsInv<F>(s: RunnerState<F>)
    requires Inv(s)
    ensures Inv(TriggerNext(s))
  {
    TriggerSteps(s);
  }

  /** A settle keeps the invariant. */
  lemma SettleKeepsInv<F>(s: RunnerState<F>, h: nat)
    requires Inv(s) && h < |s.requests|
    ensures Inv(SettleNext(s, h))
  {
  }

  /**
   * A request aborted before `run` checks its signal is rejected with
   * `CanceledError` and `requestFn` is never called.
   */
  lemma RunAfterCancel<F, T>(s: RunnerState<F>, h: nat, response: Outcome<T>)
    requires h < |s.requests| && !s.requests[h].called
    ensures var r := RunNext(CancelNext(s, h), h);
      && r.log == s.log + [Cancel(h)]
      && !r.requests[h].called
      && Delivered(r, h, response) == Rejected(CanceledError)
  {
  }

  /** The number of `cancel` calls in a log. */
  function CountCancels<F>(log: seq<Event<F>>): nat {
    if |log| == 0 then 0 else (if log[0].Cancel? then 1 else 0) + CountCancels(log[1..])
  }

  lemma {:induction false} CountCancelsAppend<F>(a: seq<Event<F>>, b: seq<Event<F>>)
    ensures CountCancels(a + b) == CountCancels(a) + CountCancels(b)
  {
    if |a| == 0 {
      assert a + b == b;
    } else {
      assert (a + b)[1..] == a[1..] + b;
      CountCancelsAppend(a[1..], b);
    }
  }

  /** The cancels logged since `base` are those logged up to `mid` and those logged after it. */
  lemma CountCancelsExtension<F>(base: seq<Event<F>>, mid: seq<Event<F>>, full: seq<Event<F>>)
    requires |base| <= |mid| <= |full| && full[..|mid|] == mid
    ensures CountCancels(full[|base|..]) == CountCancels(mid[|base|..]) + CountCancels(full[|mid|..])
  {
    assert full[|base|..] == mid[|base|..] + full[|mid|..];
    CountCancelsAppend(mid[|base|..], full[|mid|..]);
  }

  /** `n` triggers in a row, with no settle in between. */
  function Triggers<F>(s: RunnerState<F>, n: nat): (r: RunnerState<F>)
    ensures |r.requests| == |s.requests| + n
  {
    if n == 0 then s else TriggerNext(Triggers(s, n - 1))
  }

  /** A trigger logs the cancel of the slot's request, if any, then the build and the call of the new one. */
  lemma TriggerLog<F>(s: RunnerState<F>)
    requires s.slot.None? || s.slot.value < |s.requests|
    ensures var h := |s.requests|;
      && TriggerNext(s).slot == Some(h)
      && TriggerNext(s).log == s.log + (if s.slot.Some? then [Cancel(s.slot.value)] else []) + [Build(h, s.latest), Call(h, s.latest)]
  {
  }

  /** What one trigger adds to the log holds one `cancel` exactly when the slot was full. */
  lemma TriggerCancels<F>(s: RunnerState<F>)
    requires s.slot.None? || s.slot.value < |s.requests|
    ensures var r := TriggerNext(s);
      && r.slot == Some(|s.requests|)
      && |s.log| <= |r.log| && r.log[..|s.log|] == s.log
      && CountCancels(r.log[|s.log|..]) == if s.slot.Some? then 1 else 0
  {
    TriggerLog(s);
    var r := TriggerNext(s);
    var h := |s.requests|;
    var tail := [Build(h, s.latest), Call(h, s.latest)];
    assert CountCancels(tail) == 0 by {
      assert tail[1..][1..] == [];
      assert CountCancels(tail[1..]) == CountCancels(tail[1..][1..]);
    }
    if s.slot.Some? {
      var head: seq<Event<F>> := [Cancel(s.slot.value)];
      assert r.log[|s.log|..] == head + tail;
      CountCancelsAppend(head, tail);
      assert CountCancels(head) == 1 by {
        assert head[1..] == [];
      }
    } else {
      assert r.log[|s.log|..] == tail;
    }
  }

  /** A trigger aborts the request in the slot and un-aborts nothing. */
  lemma TriggerAborts<F>(s: RunnerState<F>)
    requires Inv(s)
    ensures var r := TriggerNext(s);
      && r.slot == Some(|s.requests|)
      && (forall k :: 0 <= k < |s.requests| && s.requests[k].aborted ==> r.requests[k].aborted)
      && (s.slot.Some? ==> r.requests[s.slot.value].aborted)
  {
    TriggerSteps(s);
  }

  /** `n >= 1` triggers in a row keep the invariant and leave the newest request in the slot. */
  lemma {:induction false} TriggersKeepInv<F>(s: RunnerState<F>, n: nat)
    requires Inv(s) && n >= 1
    ensures Inv(Triggers(s, n)) && Triggers(s, n).slot == Some(|s.requests| + n - 1)
  {
    var p := Triggers(s, n - 1);
    if n > 1 {
      TriggersKeepInv(s, n - 1);
    }
    TriggerKeepsInv(p);
    TriggerAborts(p);
  }

  /** Of `n` triggers in a row from an idle runner, each request but the last is aborted. */
  lemma {:induction false} TriggersAbortAllButLast<F>(s: RunnerState<F>, n: nat)
    requires Inv(s) && s.slot.None? && n >= 1
    ensures forall k :: |s.requests| <= k < |s.requests| + n - 1 ==> Triggers(s, n).requests[k].aborted
  {
    var p := Triggers(s, n - 1);
    if n > 1 {
      TriggersAbortAllButLast(s, n - 1);
      TriggersKeepInv(s, n - 1);
      TriggerAborts(p);
    }
  }

  /** A trigger with a full slot adds one cancel to those logged since `base`. */
  lemma TriggerAfterTriggers<F>(base: seq<Event<F>>, p: RunnerState<F>, m: nat)
    requires p.slot.Some? && p.slot.value < |p.requests|
    requires |base| <= |p.log| && CountCancels(p.log[|base|..]) == m
    ensures var r := TriggerNext(p);
      && r.slot == Some(|p.requests|)
      && |base| <= |r.log| && CountCancels(r.log[|base|..]) == m + 1
  {
    TriggerCancels(p);
    CountCancelsExtension(base, p.log, TriggerNext(p).log);
  }

  /** `n` triggers in a row from an idle runner call `cancel` `n - 1` times. */
  lemma {:induction false} TriggersCancel<F>(s: RunnerState<F>, n: nat)
    requires s.slot.None? && n >= 1
    ensures Triggers(s, n).slot == Some(|s.requests| + n - 1)
    ensures |s.log| <= |Triggers(s, n).log| && CountCancels(Triggers(s, n).log[|s.log|..]) == n - 1
  {
    var p := Triggers(s, n - 1);
    if n == 1 {
      TriggerCancels(s);
    } else {
      TriggersCancel(s, n - 1);
      TriggerAfterTriggers(s.log, p, n - 2);
    }
  }

  /**
   * Two overlapping triggers A then B: B cancels A; when A settles the slot
   * still holds B, whatever A delivers; when B settles the slot is empty.
   * A's caller receives `requestFn`'s own outcome for A, which is a stale
   * result if `requestFn` ignored the signal.
   */
  lemma SupersededThenCurrent<F, T>(s: RunnerState<F>, staleA: Outcome<T>)
    requires Inv(s) && s.slot.None?
    ensures var a := |s.requests|; var b := a + 1;
      var afterB := TriggerNext(TriggerNext(s));
      var afterA := SettleNext(afterB, a);
      && afterB.requests[a].aborted && afterB.slot == Some(b)
      && Delivered(afterB, a, staleA) == staleA
      && afterA.slot == Some(b)
      && SettleNext(afterA, b).slot.None?
  {
    var a := |s.requests|;
    TriggerSteps(s);
    TriggerKeepsInv(s);
    TriggerSteps(TriggerNext(s));
  }

  /** The hook's refs and the requests it has built. */
  class SequentialRequestRunner<F> {
    var requestFnRef: F
    var current: Option<nat>
    var requests: seq<Request<F>>
    var log: seq<Event<F>>

    ghost function Snapshot(): RunnerState<F>
      reads this
    {
      RunnerState(requestFnRef, current, requests, log)
    }

    ghost predicate Valid()
      reads this
    {
      Inv(Snapshot())
    }

    /** `useLatest(requestFn)` and `useRef(null)` on the first render. */
    constructor (requestFn: F)
      ensures Valid()
      ensures requestFnRef == requestFn && current.None? && requests == [] && log == []
    {
      requestFnRef := requestFn;
      current := None;
      requests := [];
      log := [];
    }

    /** `useLatest(requestFn)` on a later render: `ref.current = value`. */
    method UseLatest(requestFn: F)
      requires Valid()
      modifies this
      ensures Valid()
      ensures Snapshot() == UseLatestNext(old(Snapshot()), requestFn)
    {
      requestFnRef := requestFn;
    }

    /**
     * `cancel()` of request `h`: an internal step of Trigger (use-sequential-request.ts,
     * line 33), not called by the hook's clients.
     */
    method CancelRequest(h: nat)
      requires h < |requests|
      modifies this
      ensures Snapshot() == CancelNext(old(Snapshot()), h)
    {
      requests := requests[h := requests[h].(aborted := true)];
      log := log + [Cancel(h)];
    }

    /**
     * `run()` of request `h`: the pre-flight abort check, then the call of
     * `requestFn`. An internal step of Trigger (use-sequential-request.ts, lines 35-37), not
     * called by the hook's clients.
     */
    method RunRequest(h: nat)
      requires h < |requests|
      modifies this
      ensures Snapshot() == RunNext(old(Snapshot()), h)
    {
      if requests[h].aborted {
        return;
      }
      requests := requests[h := requests[h].(called := true)];
      log := log + [Call(h, requests[h].requestFn)];
    }

    /** One call of the trigger; `h` is the handle of the request it starts. */
    method Trigger() returns (h: nat)
      requires Valid()
      modifies this
      ensures Valid()
      ensures Snapshot() == TriggerNext(old(Snapshot()))
      ensures h == |old(requests)| && current == Some(h)
      ensures requests[h] == Request(requestFnRef, false, true, false)
    {
      ghost var before := Snapshot();
      if current.Some? {
        CancelRequest(current.value);
      }
      h := |requests|;
      requests := requests + [Request(requestFnRef, false, false, false)];
      log := log + [Build(h, requestFnRef)];
      current := Some(h);
      RunRequest(h);
      TriggerSteps(before);
      TriggerKeepsInv(before);
    }

    /**
     * Request `h` settles with `response` from `requestFn`; `delivered` is
     * what the caller's promise settles with.
     */
    method Settle<T>(h: nat, response: Outcome<T>) returns (delivered: Outcome<T>)
      requires Valid() && h < |requests| && !requests[h].settled
      modifies this
      ensures Valid()
      ensures Snapshot() == SettleNext(old(Snapshot()), h)
      ensures delivered == Delivered(old(Snapshot()), h, response)
    {
      delivered := if requests[h].called then response else Rejected(CanceledError);
      requests := requests[h := requests[h].(settled := true)];
      if current == Some(h) {
        current := None;
        log := log + [Clear(h)];
      }
      SettleKeepsInv(old(Snapshot()), h);
    }
  }
}
