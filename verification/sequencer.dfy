/**
 * postSequence and its inner handler (server/server.js:44-63).
 *
 * The runner drains the caller's array from the front with `shift()`. A
 * number schedules the handler again after a timer, a string POSTs and
 * schedules the handler again from the response callback, anything else is
 * logged and ends the run, and an empty array calls the optional callback.
 * Time and the network are not modelled: a run waits in a phase that names
 * the one event (a response or a timer) that resumes it, and what it does is
 * recorded as a trace of effects.
 */
module Sequencer {
  import opened Steps
  import opened Seqs

  /** What the runner does, in the order it does it. */
  datatype Effect =
    | Post(url: string)   // post(next, ...) issued
    | Wait(ms: int)       // setTimeout(handler, next) armed
    | Callback            // callback() invoked

  /** The effect one known element produces. */
  function EffectOf(s: Step): Effect
    requires Known(s)
  {
    match s
    case Action(url) => Post(url)
    case Delay(ms) => Wait(ms)
  }

  /** The effects of a list of known elements, one per element, in list order. */
  function EffectsOf(q: seq<Step>): (r: seq<Effect>)
    requires AllKnown(q)
    ensures |r| == |q|
    ensures forall i :: 0 <= i < |q| ==> r[i] == EffectOf(q[i])
    ensures Callback !in r
    decreases |q|
  {
    if q == [] then [] else [EffectOf(q[0])] + EffectsOf(q[1..])
  }

  /** The effect of `if (callback) callback();`. */
  function CallbackIf(hasCallback: bool): seq<Effect> {
    if hasCallback then [Callback] else []
  }

  /**
   * The complete trace of a run on `q` when every POST gets its response and
   * every timer fires: the reference semantics of postSequence.
   */
  function Trace(q: seq<Step>, hasCallback: bool): (r: seq<Effect>)
    ensures |r| <= |q| + 1
    ensures Callback in r ==> hasCallback && AllKnown(q)
    decreases |q|
  {
    if q == [] then CallbackIf(hasCallback)
    else
      match q[0]
      case Action(url) => [Post(url)] + Trace(q[1..], hasCallback)
      case Delay(ms) => [Wait(ms)] + Trace(q[1..], hasCallback)
      case Other => []
  }

  /** A run on strings and numbers performs one effect per element, in order, then the callback. */
  lemma {:induction false} TraceOfKnown(q: seq<Step>, hasCallback: bool)
    requires AllKnown(q)
    ensures Trace(q, hasCallback) == EffectsOf(q) + CallbackIf(hasCallback)
    decreases |q|
  {
    if q != [] {
      assert AllKnown(q[1..]) by {
        forall i | 0 <= i < |q[1..]| ensures Known(q[1..][i]) {
          assert q[1..][i] == q[i + 1];
        }
      }
      TraceOfKnown(q[1..], hasCallback);
      assert Known(q[0]);
    }
  }

  /** A run on strings and numbers calls a given callback exactly once, as its very last effect. */
  lemma CallbackExactlyOnce(q: seq<Step>, hasCallback: bool)
    requires AllKnown(q)
    ensures multiset(Trace(q, hasCallback))[Callback] == (if hasCallback then 1 else 0)
    ensures |Trace(q, hasCallback)| == |q| + (if hasCallback then 1 else 0)
    ensures hasCallback ==> Trace(q, hasCallback)[|q|] == Callback
  {
    TraceOfKnown(q, hasCallback);
    var e := EffectsOf(q);
    assert multiset(e)[Callback] == 0;
    assert multiset(e + CallbackIf(hasCallback)) == multiset(e) + multiset(CallbackIf(hasCallback));
  }

  /**
   * A run stops at the first element that is neither string nor number: the
   * elements before it take effect, nothing after it does, and the callback
   * is never called.
   */
  lemma {:induction false} TraceStopsAtOther(q: seq<Step>, k: nat, hasCallback: bool)
    requires k < |q| && q[k].Other? && AllKnown(q[..k])
    ensures Trace(q, hasCallback) == EffectsOf(q[..k])
    ensures Callback !in Trace(q, hasCallback)
    decreases k
  {
    if k > 0 {
      assert Known(q[..k][0]);
      var rest := q[1..];
      assert rest[..k - 1] == q[..k][1..];
      var pre := rest[..k - 1];
      assert AllKnown(pre) by {
        forall i | 0 <= i < k - 1 ensures Known(pre[i]) {
          assert pre[i] == q[..k][i + 1];
        }
      }
      TraceStopsAtOther(q[1..], k - 1, hasCallback);
    }
  }

  /** Running `a + b` performs all of `a`, in order, before anything of `b`. */
  lemma {:induction false} TraceAppend(a: seq<Step>, b: seq<Step>, hasCallback: bool)
    requires AllKnown(a)
    ensures Trace(a + b, hasCallback) == EffectsOf(a) + Trace(b, hasCallback)
    decreases |a|
  {
    if a == [] {
      assert a + b == b;
    } else {
      assert (a + b)[0] == a[0];
      assert (a + b)[1..] == a[1..] + b;
      assert AllKnown(a[1..]) by {
        forall i | 0 <= i < |a[1..]| ensures Known(a[1..][i]) {
          assert a[1..][i] == a[i + 1];
        }
      }
      TraceAppend(a[1..], b, hasCallback);
      assert Known(a[0]);
    }
  }

  /** What the handler does on shifting off `next`: a POST for a string, a timer for a number, nothing otherwise. */
  function Performed(next: Step): seq<Effect> {
    match next
    case Action(url) => [Post(url)]
    case Delay(ms) => [Wait(ms)]
    case Other => []
  }

  /** Where a run stands between two handler invocations. */
  datatype Phase =
    | Ready             // the handler is being entered: by postSequence, a timer or a response
    | AwaitingResponse  // a POST is out; its response callback re-enters the handler
    | AwaitingTimer     // a timer is armed; when it fires it re-enters the handler
    | Finished          // the array ran empty; the callback, if any, has been called
    | Halted            // an element of unknown type was shifted off and logged
  {
    /** The run will be resumed by exactly one pending continuation. */
    predicate Live() {
      Ready? || AwaitingResponse? || AwaitingTimer?
    }
  }

  /** The phase the handler leaves a run in after shifting off `next`. */
  function PhaseAfter(next: Step): Phase {
    match next
    case Action(_) => AwaitingResponse
    case Delay(_) => AwaitingTimer
    case Other => Halted
  }

  /**
   * The invariant of a run on `original` that has `sequence` left, stands in
   * `phase` and has performed `trace`.
   */
  ghost predicate Consistent(original: seq<Step>, sequence: seq<Step>, phase: Phase, trace: seq<Effect>, hasCallback: bool) {
    // what is done and what is pending add up to the reference trace
    trace + (if phase.Live() then Trace(sequence, hasCallback) else []) == Trace(original, hasCallback) &&
    // the array only ever loses elements from the front
    |sequence| <= |original| &&
    sequence == original[|original| - |sequence|..] &&
    // everything shifted off before a halt was a string or a number
    (phase != Halted ==> AllKnown(original[..|original| - |sequence|])) &&
    (phase == Halted ==>
      |sequence| < |original| &&
      AllKnown(original[..|original| - |sequence| - 1]) &&
      original[|original| - |sequence| - 1].Other?) &&
    (phase == Finished ==> sequence == [])
  }

  /** A list of strings and numbers stays one when a string or a number is appended. */
  lemma KnownSnoc(q: seq<Step>, s: Step)
    requires AllKnown(q) && Known(s)
    ensures AllKnown(q + [s])
  {
    forall i | 0 <= i < |q + [s]| ensures Known((q + [s])[i]) {
      if i < |q| { assert (q + [s])[i] == q[i]; }
    }
  }

  /** A fresh run has done nothing and has the whole array ahead of it. */
  lemma StartConsistent(original: seq<Step>, hasCallback: bool)
    ensures Consistent(original, original, Ready, [], hasCallback)
  {
    assert original[..0] == [];
    assert original[0..] == original;
  }

  /**
   * One handler step on a non-empty array keeps the invariant: the element
   * shifted off is performed, and the run waits for the matching event or halts.
   */
  lemma ShiftConsistent(original: seq<Step>, sequence: seq<Step>, phase: Phase, trace: seq<Effect>, hasCallback: bool)
    requires Consistent(original, sequence, phase, trace, hasCallback) && phase.Live() && sequence != []
    ensures Consistent(original, sequence[1..], PhaseAfter(sequence[0]), trace + Performed(sequence[0]), hasCallback)
  {
    var n, d := |original|, |original| - |sequence|;
    var next, rest := sequence[0], sequence[1..];
    assert original[d] == next;
    assert rest == original[n - |rest|..];
    assert original[..d + 1] == original[..d] + [next];
    if next.Other? {
      assert Trace(sequence, hasCallback) == [];
      assert trace + Performed(next) == trace;
    } else {
      KnownSnoc(original[..d], next);
      assert Trace(sequence, hasCallback) == Performed(next) + Trace(rest, hasCallback);
      Assoc(trace, Performed(next), Trace(rest, hasCallback));
    }
  }

  /** The handler on an empty array finishes the run with the callback, if any. */
  lemma FinishConsistent(original: seq<Step>, phase: Phase, trace: seq<Effect>, hasCallback: bool)
    requires Consistent(original, [], phase, trace, hasCallback) && phase.Live()
    ensures Consistent(original, [], Finished, trace + CallbackIf(hasCallback), hasCallback)
  {
    assert trace + CallbackIf(hasCallback) + [] == trace + CallbackIf(hasCallback);
  }

  /**
   * A run that is no longer waiting for anything has performed exactly the
   * reference trace. It finished exactly when every element was a string or a
   * number, and then its array is empty. Otherwise it halted on an element of
   * unknown type, and every element after that one is still in the array,
   * unchanged.
   */
  lemma SettledRun(original: seq<Step>, sequence: seq<Step>, phase: Phase, trace: seq<Effect>, hasCallback: bool)
    requires Consistent(original, sequence, phase, trace, hasCallback) && !phase.Live()
    ensures trace == Trace(original, hasCallback)
    ensures phase == Finished <==> AllKnown(original)
    ensures phase == Finished ==> sequence == []
    ensures phase == Halted ==>
              |sequence| < |original| && original[|original| - |sequence| - 1].Other? &&
              sequence == original[|original| - |sequence|..]
  {
    assert trace + [] == trace;
    if phase == Halted {
      var k := |original| - |sequence| - 1;
      assert !Known(original[k]);
    } else {
      assert original[..|original|] == original;
    }
  }

  /** One postSequence call: the caller's array it drains and what it has done so far. */
  class PostSequence {
    /** The caller's array, shortened in place by each `shift()`. */
    var sequence: seq<Step>
    /** Whether a (truthy) callback was passed. */
    const hasCallback: bool
    var phase: Phase
    /** The effects performed so far. */
    var trace: seq<Effect>
    /** The array as the caller passed it. */
    ghost const original: seq<Step>

    ghost predicate Valid()
      reads this
    {
      Consistent(original, sequence, phase, trace, hasCallback)
    }

    /** Handler calls still to come: one per element left, plus the one that finishes. */
    function Remaining(): nat
      reads this
    {
      |sequence| + (if phase.Live() then 1 else 0)
    }

    /** postSequence(sequence, callback): record the array and enter the handler once. */
    constructor (sequence: seq<Step>, hasCallback: bool)
      ensures Valid()
      ensures this.original == sequence && this.hasCallback == hasCallback
      ensures sequence == [] ==>
                this.sequence == [] && phase == Finished && trace == CallbackIf(hasCallback)
      ensures sequence != [] ==>
                this.sequence == sequence[1..] && phase == PhaseAfter(sequence[0]) &&
                trace == Performed(sequence[0])
    {
      this.sequence := sequence;
      this.hasCallback := hasCallback;
      this.original := sequence;
      phase := Ready;
      trace := [];
      new;
      StartConsistent(sequence, hasCallback);
      Handler();
    }

    /**
     * The inner `handler`: shift one element and act on it, or finish. It is a
     * closure, so only postSequence, a fired timer and a POST's response can
     * enter it; each of them first puts the run in `Ready`.
     */
    method Handler()
      requires Valid() && phase == Ready
      modifies this
      ensures Valid()
      ensures old(sequence) == [] ==>
                sequence == [] && phase == Finished && trace == old(trace) + CallbackIf(hasCallback)
      ensures old(sequence) != [] ==>
                sequence == old(sequence)[1..] && phase == PhaseAfter(old(sequence)[0]) &&
                trace == old(trace) + Performed(old(sequence)[0])
      ensures Remaining() < old(Remaining())
    {
      if sequence == [] {
        FinishConsistent(original, phase, trace, hasCallback);
        if hasCallback {
          trace := trace + [Callback];
        } else {
          assert trace + CallbackIf(hasCallback) == trace;
        }
        phase := Finished;
        return;
      }
      var next := sequence[0];
      ShiftConsistent(original, sequence, phase, trace, hasCallback);
      sequence := sequence[1..];
      match next
      case Delay(ms) =>
        trace := trace + [Wait(ms)];
        phase := AwaitingTimer;
      case Action(url) =>
        trace := trace + [Post(url)];
        phase := AwaitingResponse;
      case Other =>
        assert trace + Performed(next) == trace;
        phase := Halted;
    }

    /** The response callback of the pending POST fires: the run resumes. */
    method OnResponse()
      requires Valid() && phase == AwaitingResponse
      modifies this
      ensures Valid()
      ensures old(sequence) == [] ==>
                sequence == [] && phase == Finished && trace == old(trace) + CallbackIf(hasCallback)
      ensures old(sequence) != [] ==>
                sequence == old(sequence)[1..] && phase == PhaseAfter(old(sequence)[0]) &&
                trace == old(trace) + Performed(old(sequence)[0])
      ensures Remaining() < old(Remaining())
    {
      phase := Ready;
      Handler();
    }

    /** The armed timer fires: the run resumes. */
    method OnTimer()
      requires Valid() && phase == AwaitingTimer
      modifies this
      ensures Valid()
      ensures old(sequence) == [] ==>
                sequence == [] && phase == Finished && trace == old(trace) + CallbackIf(hasCallback)
      ensures old(sequence) != [] ==>
                sequence == old(sequence)[1..] && phase == PhaseAfter(old(sequence)[0]) &&
                trace == old(trace) + Performed(old(sequence)[0])
      ensures Remaining() < old(Remaining())
    {
      phase := Ready;
      Handler();
    }

    /**
     * The event loop in the case where every POST gets its response and every
     * timer fires: the pending continuation is delivered until none is left.
     * The run then has halted or finished, has done exactly the reference
     * trace, and has finished precisely when every element was a string or a
     * number; the caller's array is empty if it finished and otherwise still
     * holds the elements after the one that stopped it.
     */
    method DeliverAll()
      requires Valid()
      modifies this
      ensures Valid()
      ensures phase == Finished || phase == Halted
      ensures trace == Trace(original, hasCallback)
      ensures phase == Finished <==> AllKnown(original)
      ensures phase == Finished ==> sequence == []
      ensures phase == Halted ==>
                |sequence| < |original| && original[|original| - |sequence| - 1].Other? &&
                sequence == original[|original| - |sequence|..]
    {
      while phase.Live()
        invariant Valid()
        decreases Remaining()
      {
        if phase == AwaitingResponse {
          OnResponse();
        } else if phase == AwaitingTimer {
          OnTimer();
        } else {
          Handler();
        }
      }
      SettledRun(original, sequence, phase, trace, hasCallback);
    }
  }
}
