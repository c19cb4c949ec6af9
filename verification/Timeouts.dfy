/** How long a caller of adns may sleep: adns_firsttimeout over the queue udpw with TCP
    disconnected and idle, and the conversion to milliseconds in adns_beforepoll
    (adns/event.c, adns/poll.c). */
module Timeouts {
  import opened Text
  import opened TimeVals

  /** Microseconds from `now` to the deadline `d`, none if it has passed. */
  function Wait(now: TimeVal, d: TimeVal): nat {
    if Micros(d) > Micros(now) then Micros(d) - Micros(now) else 0
  }

  /** The least of the caller's limit and of the waits for all deadlines; None is "no
      limit". */
  function LeastWait(limit: Option<nat>, now: TimeVal, ds: seq<TimeVal>): Option<nat> {
    if ds == [] then limit
    else
      var r := LeastWait(limit, now, ds[..|ds| - 1]);
      var w := Wait(now, ds[|ds| - 1]);
      if r.None? || r.value > w then Some(w) else r
  }

  /** What "least" means. */
  lemma {:induction false} LeastWaitIs(limit: Option<nat>, now: TimeVal, ds: seq<TimeVal>)
    ensures var r := LeastWait(limit, now, ds);
      && (r.None? <==> limit.None? && ds == [])
      && (r.Some? ==>
            && (limit.Some? ==> r.value <= limit.value)
            && (forall i :: 0 <= i < |ds| ==> r.value <= Wait(now, ds[i]))
            && (limit == r || exists i :: 0 <= i < |ds| && r.value == Wait(now, ds[i])))
  {
    if ds != [] {
      var n := |ds| - 1;
      LeastWaitIs(limit, now, ds[..n]);
      var r := LeastWait(limit, now, ds);
      var r' := LeastWait(limit, now, ds[..n]);
      if r == r' {
        if limit != r {
          var i :| 0 <= i < n && r.value == Wait(now, ds[..n][i]);
          assert r.value == Wait(now, ds[i]);
        }
      } else {
        assert r.value == Wait(now, ds[n]);
      }
      forall i | 0 <= i < |ds| ensures r.value <= Wait(now, ds[i]) {
        if i < n { assert ds[..n][i] == ds[i]; }
      }
    }
  }

  lemma {:induction false} PassedDeadline(limit: Option<nat>, now: TimeVal, ds: seq<TimeVal>, i: nat)
    requires i < |ds| && Wait(now, ds[i]) == 0
    ensures LeastWait(limit, now, ds) == Some(0)
  {
    LeastWaitIs(limit, now, ds);
  }

  /** A timeout in microseconds. */
  function MicrosOf(t: Option<TimeVal>): Option<nat>
    requires t.Some? ==> Normal(t.value) && t.value.sec >= 0
  {
    if t.Some? then Some(Micros(t.value)) else None
  }

  predicate Limit(t: Option<TimeVal>) { t.Some? ==> Normal(t.value) && t.value.sec >= 0 }

  /** inter_maxto. */
  function MaxTo(t: Option<TimeVal>, maxto: TimeVal): Option<TimeVal> {
    if t.None? || Later(t.value, maxto) then Some(maxto) else t
  }

  /** The time left that inter_maxtoabs computes: two seconds are moved to the
      microseconds first, so that they are positive when they are divided. */
  function TimeLeft(now: TimeVal, maxtime: TimeVal): (r: TimeVal)
    requires Normal(now) && Normal(maxtime)
    ensures Normal(r) && r.sec >= 0 && Micros(r) == Wait(now, maxtime)
  {
    var sec := maxtime.sec - (now.sec + 2);
    var usec := maxtime.usec - (now.usec - 2 * MILLION);
    var quot := usec / MILLION;
    var sec' := sec + quot;
    var usec' := usec - quot * MILLION;
    assert usec > 0 && Normal(TimeVal(sec', usec'));
    assert sec' * MILLION + usec' == Micros(maxtime) - Micros(now);
    if sec' < 0 then TimeVal(0, 0) else TimeVal(sec', usec')
  }

  /** timeouts_queue without acting, on the deadlines of a queue. */
  method FirstTimeout(limit: Option<TimeVal>, now: TimeVal, ds: seq<TimeVal>) returns (t: Option<TimeVal>)
    requires Limit(limit) && Normal(now) && forall i :: 0 <= i < |ds| ==> Normal(ds[i])
    ensures Limit(t) && MicrosOf(t) == LeastWait(MicrosOf(limit), now, ds)
  {
    t := limit;
    var i := 0;
    assert ds[..0] == [];
    while i < |ds|
      invariant 0 <= i <= |ds| && Limit(t)
      invariant MicrosOf(t) == LeastWait(MicrosOf(limit), now, ds[..i])
    {
      LaterIs(now, ds[i]);
      if Later(now, ds[i]) {
        PassedDeadline(MicrosOf(limit), now, ds, i);
        return Some(TimeVal(0, 0));
      }
      if t.Some? { LaterIs(t.value, TimeLeft(now, ds[i])); }
      assert ds[..i + 1][..i] == ds[..i];
      t := MaxTo(t, TimeLeft(now, ds[i]));
      i := i + 1;
    }
    assert ds[..i] == ds;
  }

  /** Microseconds in whole milliseconds, rounded up. */
  function CeilMs(us: nat): (ms: nat)
    ensures ms * 1000 >= us && (us > 0 ==> (ms - 1) * 1000 < us)
  {
    (us + 999) / 1000
  }

  const INT_MAX := 0x7fff_ffff

  /** adns_beforepoll: the new timeout for poll, -1 for none. Its assertion on the range of an int holds
      (`ok`) if and only if the new timeout is at least a second below the greatest int. */
  method BeforePoll(timeout: int, now: TimeVal, ds: seq<TimeVal>) returns (ok: bool, ms: int)
    requires timeout >= -1 && Normal(now) && forall i :: 0 <= i < |ds| ==> Normal(ds[i])
    ensures var least := LeastWait(if timeout == -1 then None else Some(timeout * 1000), now, ds);
      && (ok <==> least.None? || CeilMs(least.value) <= INT_MAX - 1000)
      && (ok ==> ms == if least.None? then -1 else CeilMs(least.value))
    ensures ok && timeout >= 0 ==> 0 <= ms <= timeout
    ensures timeout >= 0 && ds == [] ==> (ok <==> timeout <= INT_MAX - 1000)
  {
    ok := true;
    var tv: Option<TimeVal> := None;
    if timeout != -1 { tv := Some(TimeVal(timeout / 1000, (timeout % 1000) * 1000)); }
    assert timeout != -1 ==> Micros(tv.value) == timeout * 1000;
    LeastWaitIs(MicrosOf(tv), now, ds);
    tv := FirstTimeout(tv, now, ds);
    if tv.Some? {
      ms := (tv.value.usec + 999) / 1000;
      ok := tv.value.sec < (INT_MAX - ms) / 1000;
      ms := ms + tv.value.sec * 1000;
      assert tv.value.sec * MILLION + tv.value.usec + 999 == 1000 * (tv.value.sec * 1000) + (tv.value.usec + 999);
    } else {
      ms := -1;
    }
  }
}
