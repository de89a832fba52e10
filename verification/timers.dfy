/** Deadlines on an abstract clock counted in whole milliseconds. A timer the
    component keeps a handle to (and so can cancel) is an `Option<nat>`; timers
    it schedules and forgets are a sequence of deadlines. */
module Timers {
  import opened Optional

  /** The tracked timer `t` fires at or before time `to`. */
  predicate Due(t: Option<nat>, to: nat) {
    t.Some? && t.value <= to
  }

  /** Some forgotten timer fires at or before time `to`. */
  predicate AnyDue(ds: seq<nat>, to: nat) {
    exists i :: 0 <= i < |ds| && ds[i] <= to
  }

  /** The tracked timer after the clock reaches `to`: gone if it fired. */
  function AfterTracked(t: Option<nat>, to: nat): (r: Option<nat>)
    ensures r.None? <==> t.None? || t.value <= to
    ensures r.Some? ==> r == t
  {
    if Due(t, to) then None else t
  }

  /** The forgotten timers still waiting once the clock reaches `to`, in the
      order they were scheduled. */
  function StillPending(ds: seq<nat>, to: nat): (r: seq<nat>)
    ensures forall d :: d in r <==> d in ds && d > to
    ensures |r| <= |ds|
    ensures |r| == |ds| <==> !AnyDue(ds, to)
    decreases |ds|
  {
    if |ds| == 0 then []
    else
      var rest := StillPending(ds[1..], to);
      assert AnyDue(ds, to) <==> ds[0] <= to || AnyDue(ds[1..], to) by {
        if AnyDue(ds[1..], to) {
          var i :| 0 <= i < |ds| - 1 && ds[1..][i] <= to;
          assert ds[i + 1] <= to;
        }
        if AnyDue(ds, to) && ds[0] > to {
          var i :| 0 <= i < |ds| && ds[i] <= to;
          assert ds[1..][i - 1] <= to;
        }
      }
      assert ds == [ds[0]] + ds[1..];
      if ds[0] <= to then rest else [ds[0]] + rest
  }

  /** Every deadline in the list lies strictly after `now`. */
  predicate AllAfter(ds: seq<nat>, now: nat) {
    forall i :: 0 <= i < |ds| ==> ds[i] > now
  }

  /** A tracked timer that has not yet fired lies strictly after `now`. */
  predicate TrackedAfter(t: Option<nat>, now: nat) {
    t.Some? ==> t.value > now
  }
}
