/**
 * The payment-status poll loop started when the payment page appears
 * (Views/PaymentWebView.swift). The replies the server would give are an
 * input sequence; each reply costs one request, and every reply that leaves
 * the payment pending is followed by one 3-second sleep.
 */
module PaymentPolling {

  import opened Wrappers
  import opened Transactions

  /** One status check: it threw, or the server replied with a status string. */
  datatype PollOutcome = Threw | Replied(status: string)

  /** Why the loop stopped; `StillPolling` means the modelled replies ran out while the loop would go on. */
  datatype Ending = Terminal | Error | StillPolling

  /** The view's payment status, the two sheet flags, and how many requests and sleeps happened. */
  datatype PollResult = PollResult(
    status: PaymentStatus,
    showingSuccess: bool,
    showingCanceled: bool,
    requests: nat,
    sleeps: nat,
    ending: Ending)

  const Start: PollResult := PollResult(Pending, false, false, 0, 0, StillPolling)

  /** A reply that ends the loop: a thrown error, or a status that parses to settlement or canceled. */
  predicate Stops(o: PollOutcome) {
    o.Threw? || FromRawValue(o.status) == Some(Settlement) || FromRawValue(o.status) == Some(Canceled)
  }

  /** Adds `k` rounds of request-then-sleep in front of a run. */
  function Shift(r: PollResult, k: nat): PollResult {
    r.(requests := r.requests + k, sleeps := r.sleeps + k)
  }

  /** The loop as a function of the replies it receives. */
  function Poll(outs: seq<PollOutcome>): (r: PollResult)
    ensures r.requests <= |outs|
    ensures r.showingSuccess <==> r.status == Settlement
    ensures r.showingCanceled <==> r.status == Canceled
    ensures r.ending == Terminal <==> r.status != Pending
    ensures r.ending == StillPolling ==> r.requests == |outs| && r.sleeps == r.requests
    ensures r.ending != StillPolling ==> 0 < r.requests && r.sleeps == r.requests - 1
    decreases |outs|
  {
    if |outs| == 0 then Start
    else if outs[0].Threw? then PollResult(Pending, false, false, 1, 0, Error)
    else
      var parsed := FromRawValue(outs[0].status);
      if parsed == Some(Settlement) then PollResult(Settlement, true, false, 1, 0, Terminal)
      else if parsed == Some(Canceled) then PollResult(Canceled, false, true, 1, 0, Terminal)
      else Shift(Poll(outs[1..]), 1)
  }

  /** Success and canceled are never both raised. */
  lemma FlagsExclusive(outs: seq<PollOutcome>)
    ensures !(Poll(outs).showingSuccess && Poll(outs).showingCanceled)
  {
  }

  /** The first reply decides: a stopping reply ends the run, any other costs one request and one sleep. */
  lemma PollFirst(outs: seq<PollOutcome>)
    requires 0 < |outs|
    ensures !Stops(outs[0]) ==> Poll(outs) == Shift(Poll(outs[1..]), 1)
    ensures outs[0].Threw? ==> Poll(outs) == PollResult(Pending, false, false, 1, 0, Error)
    ensures outs[0].Replied? && FromRawValue(outs[0].status) == Some(Settlement) ==>
      Poll(outs) == PollResult(Settlement, true, false, 1, 0, Terminal)
    ensures outs[0].Replied? && FromRawValue(outs[0].status) == Some(Canceled) ==>
      Poll(outs) == PollResult(Canceled, false, true, 1, 0, Terminal)
  {
  }

  /** Replies that do not end the loop each cost one request and one sleep. */
  lemma {:induction false} PollSkipsPending(outs: seq<PollOutcome>, i: nat)
    requires i <= |outs|
    requires forall j :: 0 <= j < i ==> !Stops(outs[j])
    ensures Poll(outs) == Shift(Poll(outs[i..]), i)
    decreases i
  {
    if i > 0 {
      PollSkipsPending(outs, i - 1);
      var rest := outs[i - 1..];
      assert rest[0] == outs[i - 1] && rest[1..] == outs[i..];
      PollFirst(rest);
      var tail := Poll(outs[i..]);
      assert Shift(Shift(tail, 1), i - 1) == Shift(tail, i);
    }
  }

  /**
   * The loop stops at the first reply that is an error, settlement or
   * cancellation, after exactly that many requests and one sleep fewer;
   * settlement raises only the success flag, cancellation only the canceled
   * flag, and an error leaves the status pending with neither.
   */
  lemma StopsAtFirstStoppingReply(outs: seq<PollOutcome>, k: nat)
    requires k < |outs| && Stops(outs[k])
    requires forall j :: 0 <= j < k ==> !Stops(outs[j])
    ensures Poll(outs).requests == k + 1 && Poll(outs).sleeps == k
    ensures outs[k].Threw? ==> Poll(outs).ending == Error && Poll(outs).status == Pending
                               && !Poll(outs).showingSuccess && !Poll(outs).showingCanceled
    ensures outs[k].Replied? && FromRawValue(outs[k].status) == Some(Settlement) ==>
      Poll(outs).status == Settlement && Poll(outs).showingSuccess && !Poll(outs).showingCanceled
    ensures outs[k].Replied? && FromRawValue(outs[k].status) == Some(Canceled) ==>
      Poll(outs).status == Canceled && Poll(outs).showingCanceled && !Poll(outs).showingSuccess
  {
    PollSkipsPending(outs, k);
  }

  /** Without a stopping reply the loop is still pending, having requested and slept once per reply. */
  lemma NeverStops(outs: seq<PollOutcome>)
    requires forall j :: 0 <= j < |outs| ==> !Stops(outs[j])
    ensures Poll(outs) == PollResult(Pending, false, false, |outs|, |outs|, StillPolling)
  {
    PollSkipsPending(outs, |outs|);
  }

  /** An unknown status string is treated like pending: the status stays pending and polling goes on. */
  lemma UnknownStatusKeepsPolling(raw: string, rest: seq<PollOutcome>)
    requires FromRawValue(raw).None?
    ensures Poll([Replied(raw)] + rest) == Shift(Poll(rest), 1)
  {
    assert ([Replied(raw)] + rest)[1..] == rest;
  }

  /** Two pending replies then settlement: three requests, two sleeps, success shown. */
  lemma PendingPendingSettlement()
    ensures Poll([Replied("pending"), Replied("pending"), Replied("settlement")])
         == PollResult(Settlement, true, false, 3, 2, Terminal)
  {
    var outs := [Replied("pending"), Replied("pending"), Replied("settlement")];
    assert FromRawValue("pending") == Some(Pending);
    assert FromRawValue("settlement") == Some(Settlement);
    PollFirst(outs);
    assert outs[1..] == [Replied("pending"), Replied("settlement")];
    PollFirst(outs[1..]);
    assert outs[1..][1..] == [Replied("settlement")];
    PollFirst(outs[1..][1..]);
  }

  /** A pending reply then cancellation: two requests, one sleep, canceled shown. */
  lemma PendingCanceled()
    ensures Poll([Replied("pending"), Replied("canceled")]) == PollResult(Canceled, false, true, 2, 1, Terminal)
  {
    var outs := [Replied("pending"), Replied("canceled")];
    assert FromRawValue("pending") == Some(Pending);
    assert FromRawValue("canceled") == Some(Canceled);
    PollFirst(outs);
    assert outs[1..] == [Replied("canceled")];
    PollFirst(outs[1..]);
  }

  /** What the reply at index `i` does to a run whose first `i` replies did not stop it. */
  lemma PollAt(outs: seq<PollOutcome>, i: nat, whole: PollResult)
    requires i < |outs|
    requires whole == Shift(Poll(outs[i..]), i)
    ensures !Stops(outs[i]) ==> whole == Shift(Poll(outs[i + 1..]), i + 1)
    ensures outs[i].Threw? ==> whole == PollResult(Pending, false, false, i + 1, i, Error)
    ensures outs[i].Replied? && FromRawValue(outs[i].status) == Some(Settlement) ==>
      whole == PollResult(Settlement, true, false, i + 1, i, Terminal)
    ensures outs[i].Replied? && FromRawValue(outs[i].status) == Some(Canceled) ==>
      whole == PollResult(Canceled, false, true, i + 1, i, Terminal)
  {
    var rest := outs[i..];
    assert rest[0] == outs[i] && rest[1..] == outs[i + 1..];
    PollFirst(rest);
    if !Stops(outs[i]) {
      var tail := Poll(outs[i + 1..]);
      assert Shift(Shift(tail, 1), i) == Shift(tail, i + 1);
    }
  }

  /**
   * The loop step by step as the view runs it: request, take a recognised
   * status, stop on a terminal status or an error, otherwise sleep once.
   */
  method StartPolling(outs: seq<PollOutcome>) returns (r: PollResult)
    ensures r == Poll(outs)
  {
    var status := Pending;
    var showingSuccess, showingCanceled := false, false;
    var requests, sleeps := 0, 0;
    var ending := StillPolling;
    var i := 0;
    while status == Pending && ending == StillPolling && i < |outs|
      invariant 0 <= i <= |outs|
      invariant requests == i
      invariant ending == StillPolling ==>
        && status == Pending && !showingSuccess && !showingCanceled && sleeps == i
        && Poll(outs) == Shift(Poll(outs[i..]), i)
      invariant ending != StillPolling ==>
        PollResult(status, showingSuccess, showingCanceled, requests, sleeps, ending) == Poll(outs)
      decreases |outs| - i
    {
      var reply := outs[i];
      PollAt(outs, i, Poll(outs));
      i := i + 1;
      requests := requests + 1;
      if reply.Threw? {
        ending := Error;
      } else {
        var parsed := FromRawValue(reply.status);
        if parsed == Some(Settlement) {
          status, showingSuccess, ending := Settlement, true, Terminal;
        } else if parsed == Some(Canceled) {
          status, showingCanceled, ending := Canceled, true, Terminal;
        } else {
          sleeps := sleeps + 1;
        }
      }
    }
    r := PollResult(status, showingSuccess, showingCanceled, requests, sleeps, ending);
  }
}
