/** What the dispatcher makes of the receiver's results: it removes the connection at the first
    fragment that is refused, so a repeated fragment ends the session. */
module Dispatcher {
  import opened Reassembly
  import opened RoundTrip

  /** The arrivals of a session until one is refused; whether the session still stands. */
  function Dispatch(ms: Messages, ss: seq<Slot>, arr: seq<Arrival>, nows: seq<nat>): (r: (Received, bool))
    requires Shaped(ss) && MessagesOk(ms) && |nows| == |arr| && ArrivalsOk(ms, arr)
    ensures Shaped(r.0.slots)
  {
    if arr == [] then (Received(ss, [], []), true)
    else
      var n := |arr| - 1;
      var (r, up) := Dispatch(ms, ss, arr[..n], nows[..n]);
      if !up then (r, false)
      else
        var r' := Next(ms, r, arr[n], nows[n]);
        (r', r'.statuses[|r'.statuses| - 1] == Success)
  }

  /** The first arrival that repeats an earlier one, or their number. */
  function FirstRepeat(arr: seq<Arrival>): (n: nat)
    ensures n <= |arr|
  {
    if arr == [] then 0
    else
      var m := |arr| - 1;
      var n := FirstRepeat(arr[..m]);
      if n < m then n else if arr[m] in arr[..m] then m else |arr|
  }

  lemma {:induction false} FirstRepeatIs(arr: seq<Arrival>)
    ensures var n := FirstRepeat(arr);
            (forall i :: 0 <= i < n ==> arr[i] !in arr[..i]) && (n < |arr| ==> arr[n] in arr[..n])
  {
    if arr != [] {
      var m := |arr| - 1;
      FirstRepeatIs(arr[..m]);
      forall i | 0 <= i < m ensures arr[..m][i] == arr[i] && arr[..m][..i] == arr[..i] {}
    }
  }

  /** As long as nothing is repeated the dispatcher is the receiver. */
  lemma {:induction false} DispatchPrefix(ms: Messages, ss: seq<Slot>, arr: seq<Arrival>, nows: seq<nat>)
    requires Shaped(ss) && Session(ms, arr) && |nows| == |arr|
    ensures Shaped(Reset(ss)) && MessagesOk(ms) && ArrivalsOk(ms, arr)
    ensures var (r, up) := Dispatch(ms, Reset(ss), arr, nows);
            && (up <==> FirstRepeat(arr) == |arr|)
            && (up ==> r == Receive(ms, Reset(ss), arr, nows))
            && r.out == Expected(ms, arr[..FirstRepeat(arr)])
  {
    hide Session, MessagesOk, ArrivalOk, Next, Complete, IncompleteSet, Expected, Delivers, Receive, Reset, FirstRepeat;
    SessionFits(ms, ss, arr);
    if arr == [] {
      NoArrivals(ms, ss);
    } else {
      var n := |arr| - 1;
      SessionPrefix(ms, arr, n);
      DispatchPrefix(ms, ss, arr[..n], nows[..n]);
      RepeatStep(arr);
      Whole(arr);
      if FirstRepeat(arr[..n]) == n {
        OneMore(ms, ss, arr, nows);
        SessionDelivers(ms, ss, arr, nows);
        OutExpected(ms, arr, Receive(ms, Reset(ss), arr, nows));
      } else {
        assert arr[..n][..FirstRepeat(arr)] == arr[..FirstRepeat(arr)];
      }
    }
  }

  lemma NoArrivals(ms: Messages, ss: seq<Slot>)
    requires Shaped(ss) && MessagesOk(ms)
    ensures Shaped(Reset(ss)) && Dispatch(ms, Reset(ss), [], []) == (Receive(ms, Reset(ss), [], []), true)
    ensures Receive(ms, Reset(ss), [], []).out == Expected(ms, [][..FirstRepeat([])]) && FirstRepeat([]) == 0
  {
  }

  lemma RepeatStep(arr: seq<Arrival>)
    requires arr != []
    ensures var n := |arr| - 1;
            var m := FirstRepeat(arr[..n]);
            FirstRepeat(arr) == if m < n then m else if arr[n] in arr[..n] then n else |arr|
  {
  }

  lemma Whole(arr: seq<Arrival>)
    requires arr != []
    ensures arr[..|arr| - 1] + [arr[|arr| - 1]] == arr && arr[..|arr|] == arr
  {
  }

  lemma OneMore(ms: Messages, ss: seq<Slot>, arr: seq<Arrival>, nows: seq<nat>)
    requires Shaped(ss) && Shaped(Reset(ss)) && Session(ms, arr) && |nows| == |arr| > 0
    requires MessagesOk(ms) && ArrivalsOk(ms, arr)
    requires var n := |arr| - 1;
             Dispatch(ms, Reset(ss), arr[..n], nows[..n]) == (Receive(ms, Reset(ss), arr[..n], nows[..n]), true)
    ensures var n := |arr| - 1;
            && Dispatch(ms, Reset(ss), arr, nows) == (Receive(ms, Reset(ss), arr, nows), arr[n] !in arr[..n])
            && (arr[n] in arr[..n] ==> Expected(ms, arr) == Expected(ms, arr[..n]))
  {
    hide Session, MessagesOk, ArrivalOk, Next, Complete, IncompleteSet, Expected, Delivers, Receive, Reset;
    var n := |arr| - 1;
    SessionPrefix(ms, arr, n);
    ReceiveStep(ms, Reset(ss), arr, nows);
    SessionDelivers(ms, ss, arr, nows);
    OutExpected(ms, arr, Receive(ms, Reset(ss), arr, nows));
    if arr[n] in arr[..n] {
      NothingDue(ms, arr[..n], arr[n]);
    }
  }

  lemma SessionFits(ms: Messages, ss: seq<Slot>, arr: seq<Arrival>)
    requires Shaped(ss) && Session(ms, arr)
    ensures Shaped(Reset(ss)) && MessagesOk(ms) && ArrivalsOk(ms, arr)
  {
  }

  lemma OutExpected(ms: Messages, arr: seq<Arrival>, r: Received)
    requires Delivers(ms, arr, r)
    ensures r.out == Expected(ms, arr) && |r.statuses| == |arr|
    ensures arr != [] ==>
              var n := |arr| - 1; r.statuses[n] == if arr[n] in arr[..n] then BadData else Success
  {
  }

  lemma NothingDue(ms: Messages, arr: seq<Arrival>, a: Arrival)
    requires a in arr && !Complete(ms, arr, a.M)
    ensures Expected(ms, arr + [a]) == Expected(ms, arr)
  {
    hide Complete, Expected;
    ExpectedNext(ms, arr, a);
    RepeatFrame(ms, arr, a, a.M);
  }

  /** The deliveries of a session are those due up to the first repeated fragment, and the session is
      ended if and only if a fragment is repeated. */
  lemma EndsAtRepeat(ms: Messages, ss: seq<Slot>, arr: seq<Arrival>, nows: seq<nat>)
    requires Shaped(ss) && Session(ms, arr) && |nows| == |arr|
    ensures Shaped(Reset(ss)) && MessagesOk(ms) && ArrivalsOk(ms, arr)
    ensures var (r, up) := Dispatch(ms, Reset(ss), arr, nows);
            && r.out == Expected(ms, arr[..FirstRepeat(arr)])
            && (!up <==> exists i :: 0 <= i < |arr| && arr[i] in arr[..i])
  {
    hide Session, Dispatch, Expected, Reset;
    DispatchPrefix(ms, ss, arr, nows);
    FirstRepeatIs(arr);
    var n := FirstRepeat(arr);
    if n < |arr| {
      assert arr[n] in arr[..n];
    }
  }
}
