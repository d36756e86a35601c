// The front door: new connections go to the current target, old ones keep flowing until they
// close or are drained (src/runHosting/gateway.ts).
module Gateways {
  import opened Collections

  datatype Target = Target(https: nat, http: nat) {
    predicate Has(port: nat) { port == https || port == http }
  }

  /** The tracked connections, each with the port it was connected to. */
  datatype Gate = Gate(target: Option<Target>, conns: map<nat, nat>, nextConn: nat)

  function SetTarget(g: Gate, t: Target): Gate {
    g.(target := Some(t))
  }

  /** A client arrives; with no target it is dropped. */
  function OnClient(g: Gate, isHttps: bool): Gate {
    if g.target.None? then g
    else
      var port := if isHttps then g.target.value.https else g.target.value.http;
      g.(conns := g.conns[g.nextConn := port], nextConn := g.nextConn + 1)
  }

  function Teardown(g: Gate, conn: nat): Gate {
    g.(conns := g.conns - {conn})
  }

  function OnTarget(g: Gate, t: Target): set<nat> {
    set c | c in g.conns && t.Has(g.conns[c])
  }

  function Sweep(g: Gate, t: Target): Gate {
    g.(conns := g.conns - OnTarget(g, t))
  }

  ghost predicate NoneOn(g: Gate, t: Target) {
    forall c :: c in g.conns ==> !t.Has(g.conns[c])
  }

  // --- Draining ----------------------------------------------------------------------------------

  /** What happens at the front door during one pause of a drain. */
  datatype Pause = Pause(arrivals: seq<bool>, closed: seq<nat>, aborted: bool)

  function Arrive(g: Gate, arrivals: seq<bool>): Gate
    decreases |arrivals|
  {
    if arrivals == [] then g else Arrive(OnClient(g, arrivals[0]), arrivals[1..])
  }

  function Close(g: Gate, closed: seq<nat>): Gate
    decreases |closed|
  {
    if closed == [] then g else Close(Teardown(g, closed[0]), closed[1..])
  }

  function During(g: Gate, pause: Pause): Gate {
    Close(Arrive(g, pause.arrivals), pause.closed)
  }

  /** The drain, its timeout being the number of pauses: the gateway after it, and whether it was aborted. */
  function Drained(g: Gate, t: Target, pauses: seq<Pause>, aborted: bool): (Gate, bool)
    decreases |pauses|
  {
    if aborted then (g, true)
    else if pauses == [] || OnTarget(g, t) == {} then (Sweep(g, t), false)
    else Drained(During(g, pauses[0]), t, pauses[1..], pauses[0].aborted)
  }

  lemma SweepIs(g: Gate, t: Target)
    ensures NoneOn(Sweep(g, t), t)
    ensures forall c :: c in Sweep(g, t).conns <==> c in g.conns && !t.Has(g.conns[c])
  {
  }

  /** No port of `t` takes new connections. */
  ghost predicate Retired(g: Gate, t: Target) {
    g.target.Some? ==> !t.Has(g.target.value.https) && !t.Has(g.target.value.http)
  }

  /** Every connection of `g` on `t`'s ports was there in `earlier`, on the same port. */
  ghost predicate OnlyOld(earlier: Gate, g: Gate, t: Target) {
    && g.target == earlier.target && earlier.nextConn <= g.nextConn
    && forall c :: c in g.conns && t.Has(g.conns[c]) ==> c in earlier.conns && earlier.conns[c] == g.conns[c]
  }

  lemma {:induction false} ArriveElsewhere(g: Gate, arrivals: seq<bool>, t: Target)
    requires Retired(g, t)
    ensures OnlyOld(g, Arrive(g, arrivals), t)
    decreases |arrivals|
  {
    if arrivals != [] {
      ArriveElsewhere(OnClient(g, arrivals[0]), arrivals[1..], t);
    }
  }

  lemma {:induction false} CloseKeeps(g: Gate, closed: seq<nat>, t: Target)
    ensures OnlyOld(g, Close(g, closed), t)
    decreases |closed|
  {
    if closed != [] {
      CloseKeeps(Teardown(g, closed[0]), closed[1..], t);
    }
  }

  lemma DuringKeeps(g: Gate, pause: Pause, t: Target)
    requires Retired(g, t)
    ensures OnlyOld(g, During(g, pause), t)
  {
    ArriveElsewhere(g, pause.arrivals, t);
    CloseKeeps(Arrive(g, pause.arrivals), pause.closed, t);
  }

  /**
   * Once the target has moved off `t`, no new connection reaches `t`'s ports whatever arrives during
   * the drain, and a drain that is not aborted leaves none on them.
   */
  lemma {:induction false} DrainLeavesNone(g: Gate, t: Target, pauses: seq<Pause>, aborted: bool)
    requires Retired(g, t)
    ensures var (after, stopped) := Drained(g, t, pauses, aborted);
      && OnlyOld(g, after, t)
      && (!stopped ==> NoneOn(after, t))
      && (stopped ==> aborted || exists i :: 0 <= i < |pauses| && pauses[i].aborted)
    decreases |pauses|
  {
    if !aborted {
      SweepIs(g, t);
      if pauses != [] && OnTarget(g, t) != {} {
        DuringKeeps(g, pauses[0], t);
        DrainLeavesNone(During(g, pauses[0]), t, pauses[1..], pauses[0].aborted);
      }
    }
  }

  // --- What else a drain may do ----------------------------------------------------------------------

  /** Where a new client is connected to. */
  function PortFor(t: Target, isHttps: bool): nat {
    if isHttps then t.https else t.http
  }

  /** Clients are tracked one by one under fresh numbers; without a target they are dropped. */
  lemma {:induction false} ArrivalsJoin(g: Gate, arrivals: seq<bool>)
    requires forall c :: c in g.conns ==> c < g.nextConn
    ensures var after := Arrive(g, arrivals);
      && after.target == g.target
      && (g.target.None? ==> after == g)
      && (g.target.Some? ==>
            && after.nextConn == g.nextConn + |arrivals|
            && (forall c :: c in g.conns ==> c in after.conns && after.conns[c] == g.conns[c])
            && (forall c :: c in after.conns ==> c in g.conns || g.nextConn <= c < after.nextConn))
    decreases |arrivals|
  {
    if arrivals != [] {
      ArrivalsJoin(OnClient(g, arrivals[0]), arrivals[1..]);
    }
  }

  /** Each is connected to the target's port of its kind. */
  lemma {:induction false} ArrivalIsConnected(g: Gate, arrivals: seq<bool>, k: nat)
    requires (forall c :: c in g.conns ==> c < g.nextConn) && g.target.Some? && k < |arrivals|
    ensures var after := Arrive(g, arrivals);
      g.nextConn + k in after.conns && after.conns[g.nextConn + k] == PortFor(g.target.value, arrivals[k])
    decreases |arrivals|
  {
    var next := OnClient(g, arrivals[0]);
    if k == 0 {
      ArrivalsJoin(next, arrivals[1..]);
    } else {
      ArrivalIsConnected(next, arrivals[1..], k - 1);
    }
  }

  /** Closing connections drops those and no others. */
  lemma {:induction false} ClosedLeave(g: Gate, closed: seq<nat>)
    ensures var after := Close(g, closed);
      && after.target == g.target && after.nextConn == g.nextConn
      && forall c :: c in after.conns <==> c in g.conns && c !in closed
    ensures forall c :: c in Close(g, closed).conns ==> Close(g, closed).conns[c] == g.conns[c]
    decreases |closed|
  {
    if closed != [] {
      ClosedLeave(Teardown(g, closed[0]), closed[1..]);
    }
  }

  /** The gateway after the first `k` pauses, nothing being force-closed. */
  function After(g: Gate, pauses: seq<Pause>, k: nat): Gate
    requires k <= |pauses|
  {
    if k == 0 then g else During(After(g, pauses, k - 1), pauses[k - 1])
  }

  predicate AbortedBy(pauses: seq<Pause>, aborted: bool, k: nat)
    requires k <= |pauses|
  {
    if k == 0 then aborted else pauses[k - 1].aborted
  }

  lemma {:induction false} AfterShifts(g: Gate, pauses: seq<Pause>, k: nat)
    requires pauses != [] && k <= |pauses| - 1
    ensures After(During(g, pauses[0]), pauses[1..], k) == After(g, pauses, k + 1)
  {
    if k > 0 { AfterShifts(g, pauses, k - 1); }
  }

  /**
   * A drain waits: it force-closes nothing as long as connections are left on the retired ports,
   * its time is not up and it is not aborted; then it closes what is left there, or nothing
   * when it was aborted.
   */
  lemma {:induction false} DrainWaits(g: Gate, t: Target, pauses: seq<Pause>, aborted: bool) returns (k: nat)
    ensures k <= |pauses|
    ensures forall j :: 0 <= j < k ==> !AbortedBy(pauses, aborted, j) && OnTarget(After(g, pauses, j), t) != {}
    ensures var (after, stopped) := Drained(g, t, pauses, aborted);
      && stopped == AbortedBy(pauses, aborted, k)
      && (stopped ==> after == After(g, pauses, k))
      && (!stopped ==> after == Sweep(After(g, pauses, k), t) && (k == |pauses| || OnTarget(After(g, pauses, k), t) == {}))
    decreases |pauses|
  {
    if aborted || pauses == [] || OnTarget(g, t) == {} {
      k := 0;
    } else {
      var later := DrainWaits(During(g, pauses[0]), t, pauses[1..], pauses[0].aborted);
      k := later + 1;
      AfterShifts(g, pauses, later);
      assert AbortedBy(pauses, aborted, k) == AbortedBy(pauses[1..], pauses[0].aborted, later);
      assert Drained(g, t, pauses, aborted) == Drained(During(g, pauses[0]), t, pauses[1..], pauses[0].aborted);
      forall j | 0 <= j < k
        ensures !AbortedBy(pauses, aborted, j) && OnTarget(After(g, pauses, j), t) != {}
      {
        if j > 0 {
          AfterShifts(g, pauses, j - 1);
          assert !AbortedBy(pauses[1..], pauses[0].aborted, j - 1);
          assert AbortedBy(pauses, aborted, j) == AbortedBy(pauses[1..], pauses[0].aborted, j - 1);
        }
      }
    }
  }

  // --- The gateway as the source runs it -----------------------------------------------------------

  class Gateway {
    var target: Option<Target>
    var conns: map<nat, nat>
    var nextConn: nat

    constructor (initialTarget: Option<Target>)
      ensures Value() == Gate(initialTarget, map[], 0)
    {
      target := initialTarget;
      conns := map[];
      nextConn := 0;
    }

    function Value(): Gate
      reads this
    {
      Gate(target, conns, nextConn)
    }

    method Point(t: Target)
      modifies this
      ensures Value() == SetTarget(old(Value()), t)
    {
      target := Some(t);
    }

    method Accept(isHttps: bool)
      modifies this
      ensures Value() == OnClient(old(Value()), isHttps)
    {
      if target.None? { return; }
      var connectPort := if isHttps then target.value.https else target.value.http;
      conns := conns[nextConn := connectPort];
      nextConn := nextConn + 1;
    }

    method Forget(conn: nat)
      modifies this
      ensures Value() == Teardown(old(Value()), conn)
    {
      conns := conns - {conn};
    }

    /** What the event loop does while a drain sleeps. */
    method Sleep(pause: Pause)
      modifies this
      ensures Value() == During(old(Value()), pause)
    {
      ghost var before := Value();
      for i := 0 to |pause.arrivals|
        invariant Arrive(before, pause.arrivals) == Arrive(Value(), pause.arrivals[i..])
      {
        assert pause.arrivals[i..][1..] == pause.arrivals[i + 1..];
        Accept(pause.arrivals[i]);
      }
      ghost var arrived := Value();
      for i := 0 to |pause.closed|
        invariant Close(arrived, pause.closed) == Close(Value(), pause.closed[i..])
      {
        assert pause.closed[i..][1..] == pause.closed[i + 1..];
        Forget(pause.closed[i]);
      }
    }

    method Drain(t: Target, pauses: seq<Pause>, abortedBefore: bool) returns (aborted: bool)
      modifies this
      ensures (Value(), aborted) == Drained(old(Value()), t, pauses, abortedBefore)
    {
      aborted := abortedBefore;
      var i := 0;
      while OnTarget(Value(), t) != {} && i < |pauses|
        invariant 0 <= i <= |pauses|
        invariant Drained(old(Value()), t, pauses, abortedBefore) == Drained(Value(), t, pauses[i..], aborted)
        decreases |pauses| - i
      {
        if aborted { return; }
        assert pauses[i..][1..] == pauses[i + 1..];
        Sleep(pauses[i]);
        aborted := pauses[i].aborted;
        i := i + 1;
      }
      if aborted { return; }
      SweepAway(t);
    }

    /** Force-closes what is left on the target's ports. */
    method SweepAway(t: Target)
      modifies this
      ensures Value() == Sweep(old(Value()), t)
    {
      conns := conns - OnTarget(Value(), t);
    }
  }
}
