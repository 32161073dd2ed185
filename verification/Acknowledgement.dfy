/** The acknowledgement accounting of NetConnection.read: 32-bit counters against unbounded traffic. */
module Acknowledgement {
  import opened Bytes

  /** BytesIn and lastAckWindowSize. */
  datatype Counters = Counters(bytesIn: nat, lastAck: nat)

  /** The size of one read from the socket and the peer's window at that moment. */
  datatype Read = Read(size: nat, window: nat)

  const MAX_READ := 14 + 4096

  /** A number kept in a uint32. */
  function Wrap(n: int): nat {
    n % TWO32
  }

  function Since(c: Counters): nat {
    Wrap(c.bytesIn - c.lastAck)
  }

  predicate Due(c: Counters, r: Read) {
    Since(Counters(Wrap(c.bytesIn + r.size), c.lastAck)) >= r.window
  }

  function Count(c: Counters, r: Read): Counters {
    var b := Wrap(c.bytesIn + r.size);
    Counters(b, if Due(c, r) then b else c.lastAck)
  }

  /** The traffic without bounds: everything received, and how much of it was acknowledged. */
  datatype Traffic = Traffic(total: nat, acked: nat)

  function Observe(t: Traffic, c: Counters, r: Read): Traffic {
    Traffic(t.total + r.size, if Due(c, r) then t.total + r.size else t.acked)
  }

  /** The counters tell the true number of unacknowledged octets. */
  predicate Exact(c: Counters, t: Traffic) {
    && t.acked <= t.total
    && c.bytesIn == Wrap(t.total) && c.lastAck == Wrap(t.acked)
    && Since(c) == t.total - t.acked
  }

  function CountAll(c: Counters, rs: seq<Read>): Counters
    decreases |rs|
  {
    if rs == [] then c else CountAll(Count(c, rs[0]), rs[1..])
  }

  function ObserveAll(t: Traffic, c: Counters, rs: seq<Read>): Traffic
    decreases |rs|
  {
    if rs == [] then t else ObserveAll(Observe(t, c, rs[0]), Count(c, rs[0]), rs[1..])
  }

  const START := Counters(0, 0)
  const NOTHING := Traffic(0, 0)

  lemma {:induction false} Differences(total: nat, acked: nat)
    requires acked <= total < acked + TWO32
    ensures Wrap(Wrap(total) - Wrap(acked)) == total - acked
  {
  }

  lemma {:induction false} Wraps(a: nat, n: nat)
    ensures Wrap(Wrap(a) + n) == Wrap(a + n)
  {
  }

  /** One read keeps the counters exact as long as fewer than 2^32 octets are outstanding. */
  lemma {:induction false} CountExact(c: Counters, t: Traffic, r: Read)
    requires Exact(c, t) && t.total - t.acked + r.size < TWO32
    ensures Exact(Count(c, r), Observe(t, c, r))
    ensures var u := Observe(t, c, r); r.window > 0 ==> u.total - u.acked < r.window
    ensures Due(c, r) <==> t.total + r.size - t.acked >= r.window
  {
    hide Wrap;
    Advance(c, t, r.size);
    Differences(t.total + r.size, t.total + r.size);
  }

  lemma {:induction false} Advance(c: Counters, t: Traffic, n: nat)
    requires Exact(c, t) && t.total - t.acked + n < TWO32
    ensures Exact(Counters(Wrap(c.bytesIn + n), c.lastAck), t.(total := t.total + n))
  {
    hide Wrap;
    Differences(t.total + n, t.acked);
    Wraps(t.total, n);
  }

  predicate Bounded(rs: seq<Read>) {
    forall r <- rs :: r.size <= MAX_READ && r.window <= TWO32 - MAX_READ
  }

  /** Over unbounded traffic, with windows that change between reads: the counters stay exact, and
      after every check fewer octets than the current window, unless it is 0, are unacknowledged. */
  lemma {:induction false} AlwaysExact(c: Counters, t: Traffic, rs: seq<Read>)
    requires Exact(c, t) && t.total - t.acked < TWO32 - MAX_READ && Bounded(rs)
    ensures var u := ObserveAll(t, c, rs);
            && Exact(CountAll(c, rs), u)
            && u.total - u.acked < TWO32 - MAX_READ
            && (rs != [] && rs[|rs| - 1].window > 0 ==> u.total - u.acked < rs[|rs| - 1].window)
    decreases |rs|
  {
    if rs != [] {
      CountExact(c, t, rs[0]);
      AlwaysExact(Count(c, rs[0]), Observe(t, c, rs[0]), rs[1..]);
    }
  }

  /** All reads see the same window. */
  predicate Steady(rs: seq<Read>, w: nat) {
    forall r <- rs :: r.size <= MAX_READ && r.window == w
  }

  /** n reads of one octet. */
  function Trickle(n: nat, w: nat): seq<Read> {
    seq(n, _ => Read(1, w))
  }

  lemma {:induction false} TrickleCount(c: Counters, t: Traffic, n: nat, w: nat)
    requires Exact(c, t) && t.total - t.acked + n < w <= TWO32
    ensures var u := ObserveAll(t, c, Trickle(n, w));
            Exact(CountAll(c, Trickle(n, w)), u) && u == Traffic(t.total + n, t.acked)
    decreases n
  {
    if n > 0 {
      CountExact(c, t, Read(1, w));
      assert Trickle(n, w)[1..] == Trickle(n - 1, w);
      TrickleCount(Count(c, Read(1, w)), Observe(t, c, Read(1, w)), n - 1, w);
    }
  }

  lemma {:induction false} CountAppend(c: Counters, t: Traffic, rs: seq<Read>, r: Read)
    ensures CountAll(c, rs + [r]) == Count(CountAll(c, rs), r)
    ensures ObserveAll(t, c, rs + [r]) == Observe(ObserveAll(t, c, rs), CountAll(c, rs), r)
    decreases |rs|
  {
    if rs == [] {
      assert [r][1..] == [];
    } else {
      assert (rs + [r])[1..] == rs[1..] + [r];
      CountAppend(Count(c, rs[0]), Observe(t, c, rs[0]), rs[1..], r);
    }
  }

  /** Above 2^32 - 4110 a window is not safe: just below it, one full read wraps the counter. */
  lemma {:induction false} WindowTooLarge(w: nat) returns (rs: seq<Read>)
    requires TWO32 - MAX_READ < w < TWO32
    ensures Steady(rs, w)
    ensures !Exact(CountAll(START, rs), ObserveAll(NOTHING, START, rs))
  {
    var slow := Trickle(w - 1, w);
    TrickleCount(START, NOTHING, w - 1, w);
    CountAppend(START, NOTHING, slow, Read(MAX_READ, w));
    rs := slow + [Read(MAX_READ, w)];
    assert CountAll(START, slow).bytesIn == w - 1;
    var c := CountAll(START, slow);
    assert Wrap(c.bytesIn + MAX_READ) == w - 1 + MAX_READ - TWO32;
    assert !Due(c, Read(MAX_READ, w));
  }

  /** The largest window for which the accounting is right on every connection. */
  lemma {:induction false} WindowBound(w: nat)
    requires w < TWO32
    ensures (forall rs: seq<Read> | Steady(rs, w) :: Exact(CountAll(START, rs), ObserveAll(NOTHING, START, rs)))
            <==> w <= 0xFFFF_EFF2
  {
    if w <= TWO32 - MAX_READ {
      forall rs: seq<Read> | Steady(rs, w)
        ensures Exact(CountAll(START, rs), ObserveAll(NOTHING, START, rs))
      {
        AlwaysExact(START, NOTHING, rs);
      }
    } else {
      var rs := WindowTooLarge(w);
    }
  }
}
