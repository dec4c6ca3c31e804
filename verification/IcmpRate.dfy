/** The rate limit on injected ICMP errors in one peer's sender task (`spawn_peer_sender`, src/tun/mod.rs). */
module IcmpRate {
  import opened Net

  /** Time is the monotone clock in nanoseconds. */
  const SECOND := 1_000_000_000
  const ICMP_PTB_RATE_PER_SEC := 20

  /**
   * One packet taken from the queue, with the clock where the sender reads or passes it: when it asks
   * how old the window is, when it restarts the window, when it has injected the error. `answered`
   * says whether a builder returns an error for the packet.
   */
  datatype Packet = Packet(oversize: bool, answered: bool, asked: int, restarted: int, injected: int)

  ghost predicate Monotone(now: int, packets: seq<Packet>)
    decreases |packets|
  {
    packets == [] ||
    (now <= packets[0].asked <= packets[0].restarted <= packets[0].injected
     && Monotone(packets[0].injected, packets[1..]))
  }

  function WindowStart(start: int, p: Packet): int {
    if p.asked - start >= SECOND then p.restarted else start
  }

  function WindowCount(start: int, count: nat, p: Packet): nat {
    if p.asked - start >= SECOND then 0 else count
  }

  /** The times of injected errors, from a window that began at `start` and has used `count`. */
  function Injections(start: int, count: nat, packets: seq<Packet>): seq<int>
    decreases |packets|
  {
    if packets == [] then []
    else
      var p, rest := packets[0], packets[1..];
      if !p.oversize then Injections(start, count, rest)
      else
        var start', count' := WindowStart(start, p), WindowCount(start, count, p);
        if count' < ICMP_PTB_RATE_PER_SEC && p.answered
        then [p.injected] + Injections(start', count' + 1, rest)
        else Injections(start', count', rest)
  }

  /** The sender's loop. */
  method SenderLoop(born: int, packets: seq<Packet>) returns (times: seq<int>)
    ensures times == Injections(born, 0, packets)
  {
    var windowStart, windowCount := born, 0;
    times := [];
    for i := 0 to |packets|
      invariant times + Injections(windowStart, windowCount, packets[i..]) == Injections(born, 0, packets)
    {
      var p := packets[i];
      assert packets[i..][0] == p && packets[i..][1..] == packets[i + 1..];
      if p.oversize {
        if p.asked - windowStart >= SECOND {
          windowStart, windowCount := p.restarted, 0;
        }
        if windowCount < ICMP_PTB_RATE_PER_SEC && p.answered {
          times := times + [p.injected];
          windowCount := windowCount + 1;
        }
      }
    }
  }

  // ---------------------------------------------------------------- which packets are answered

  /** When the window began that is current as packet i comes: the last restart, or the sender's birth. */
  function Began(born: int, packets: seq<Packet>, i: nat): int
    requires i <= |packets|
    decreases i, 0
  {
    if i == 0 then born
    else if Restarts(born, packets, i - 1) then packets[i - 1].restarted
    else Began(born, packets, i - 1)
  }

  /** An oversize packet a second or more after the window began opens a new one. */
  predicate Restarts(born: int, packets: seq<Packet>, i: nat)
    requires i < |packets|
    decreases i, 1
  {
    packets[i].oversize && packets[i].asked >= Began(born, packets, i) + 1_000_000_000
  }

  /** The first packet of packet i's window. */
  function Opened(born: int, packets: seq<Packet>, i: nat): (o: nat)
    requires i < |packets|
    ensures o <= i
  {
    if i == 0 || Restarts(born, packets, i) then i else Opened(born, packets, i - 1)
  }

  /** The errors injected by the first i packets. */
  function Before(born: int, packets: seq<Packet>, i: nat): seq<int>
    requires i <= |packets|
  {
    Injections(born, 0, packets[..i])
  }

  /** The sender's two variables behind the packets. */
  function Window(start: int, count: nat, packets: seq<Packet>): (int, nat)
    decreases |packets|
  {
    if packets == [] then (start, count)
    else
      var p, rest := packets[0], packets[1..];
      if !p.oversize then Window(start, count, rest)
      else
        var start', count' := WindowStart(start, p), WindowCount(start, count, p);
        Window(start', if count' < ICMP_PTB_RATE_PER_SEC && p.answered then count' + 1 else count', rest)
  }

  function OneMore(window: (int, nat), p: Packet): seq<int> {
    if p.oversize && p.answered && WindowCount(window.0, window.1, p) < ICMP_PTB_RATE_PER_SEC then [p.injected] else []
  }

  lemma {:induction false} LastPacket(start: int, count: nat, packets: seq<Packet>, p: Packet)
    ensures Injections(start, count, packets + [p])
            == Injections(start, count, packets) + OneMore(Window(start, count, packets), p)
    ensures var w := Window(start, count, packets);
            Window(start, count, packets + [p])
            == if p.oversize then (WindowStart(w.0, p), WindowCount(w.0, w.1, p) + |OneMore(w, p)|) else w
    decreases |packets|
  {
    if packets == [] {
      assert ([] + [p])[1..] == [];
    } else {
      var head, rest := packets[0], packets[1..];
      assert (packets + [p])[1..] == rest + [p];
      if !head.oversize {
        LastPacket(start, count, rest, p);
      } else {
        var start', count' := WindowStart(start, head), WindowCount(start, count, head);
        var more := count' < ICMP_PTB_RATE_PER_SEC && head.answered;
        LastPacket(start', if more then count' + 1 else count', rest, p);
        if more {
          assert [head.injected] + (Injections(start', count' + 1, rest) + OneMore(Window(start, count, packets), p))
              == [head.injected] + Injections(start', count' + 1, rest) + OneMore(Window(start, count, packets), p);
        }
      }
    }
  }

  /** The sender's variables are the window's beginning and the errors injected in it. */
  lemma {:induction false} WindowIsCurrent(born: int, packets: seq<Packet>, i: nat)
    requires i < |packets|
    ensures var w := Window(born, 0, packets[..i + 1]);
            && w.0 == Began(born, packets, i + 1)
            && w.1 == |Before(born, packets, i + 1)| - |Before(born, packets, Opened(born, packets, i))|
  {
    assert packets[..i + 1] == packets[..i] + [packets[i]];
    LastPacket(born, 0, packets[..i], packets[i]);
    if i > 0 {
      WindowIsCurrent(born, packets, i - 1);
    }
  }

  /**
   * For every packet of every history: it is answered if and only if it is oversize, a builder has an answer, and
   * fewer than 20 errors have been injected since its window was opened.
   */
  lemma AnsweredExactly(born: int, packets: seq<Packet>, i: nat)
    requires i < |packets|
    ensures var used := |Before(born, packets, i)| - |Before(born, packets, Opened(born, packets, i))|;
            Before(born, packets, i + 1) == Before(born, packets, i)
              + if packets[i].oversize && packets[i].answered && used < 20 then [packets[i].injected] else []
  {
    assert packets[..i + 1] == packets[..i] + [packets[i]];
    LastPacket(born, 0, packets[..i], packets[i]);
    if i > 0 {
      WindowIsCurrent(born, packets, i - 1);
    }
  }

  // ---------------------------------------------------------------- how many in an interval

  /** How many of the times lie in the half-open interval from lo to hi. */
  function CountIn(times: seq<int>, lo: int, hi: int): nat {
    if times == [] then 0
    else (if lo <= times[0] < hi then 1 else 0) + CountIn(times[1..], lo, hi)
  }

  /** How many windows can still begin before hi, each at least a second after the last. */
  function WindowsLeft(start: int, hi: int): nat {
    if start >= hi then 0 else (hi - 1 - start) / SECOND
  }

  /** What may still be injected between lo and hi by a task at time `now` in the given window. */
  function Allowance(start: int, count: nat, now: int, lo: int, hi: int): int {
    if hi <= now then 0
    else if start >= lo then
      ICMP_PTB_RATE_PER_SEC - count + ICMP_PTB_RATE_PER_SEC * WindowsLeft(start, hi)
    else
      (if now < lo then ICMP_PTB_RATE_PER_SEC else ICMP_PTB_RATE_PER_SEC - count)
      + ICMP_PTB_RATE_PER_SEC * (WindowsLeft(lo, hi) + 1)
  }

  lemma {:induction false} AllowanceSuffices(start: int, count: nat, now: int, lo: int, hi: int, packets: seq<Packet>)
    requires Monotone(now, packets) && start <= now && count <= ICMP_PTB_RATE_PER_SEC && lo < hi
    ensures CountIn(Injections(start, count, packets), lo, hi) <= Allowance(start, count, now, lo, hi)
    decreases |packets|
  {
    if packets != [] {
      var p, rest := packets[0], packets[1..];
      if !p.oversize {
        AllowanceSuffices(start, count, p.injected, lo, hi, rest);
      } else {
        var start', count' := WindowStart(start, p), WindowCount(start, count, p);
        if count' < ICMP_PTB_RATE_PER_SEC && p.answered {
          AllowanceSuffices(start', count' + 1, p.injected, lo, hi, rest);
          var more := Injections(start', count' + 1, rest);
          assert ([p.injected] + more)[1..] == more;
        } else {
          AllowanceSuffices(start', count', p.injected, lo, hi, rest);
        }
      }
    }
  }

  /** Any half-open interval of T nanoseconds sees at most 20 errors a started second, and 20 more. */
  lemma RateBound(born: int, packets: seq<Packet>, lo: int, length: nat)
    requires Monotone(born, packets) && length > 0
    ensures CountIn(Injections(born, 0, packets), lo, lo + length)
            <= ICMP_PTB_RATE_PER_SEC * ((length + SECOND - 1) / SECOND + 1)
  {
    AllowanceSuffices(born, 0, born, lo, lo + length, packets);
  }

  lemma OneSecondBound(born: int, packets: seq<Packet>, lo: int)
    requires Monotone(born, packets)
    ensures CountIn(Injections(born, 0, packets), lo, lo + SECOND) <= 40
  {
    RateBound(born, packets, lo, SECOND);
  }

  // ---------------------------------------------------------------- the bound is met

  function Burst(n: nat, at: int): seq<Packet> {
    seq(n, i => Packet(true, true, at, at, at))
  }

  lemma {:induction false} BurstInjects(start: int, count: nat, n: nat, at: int, rest: seq<Packet>, lo: int, hi: int)
    requires count + n <= ICMP_PTB_RATE_PER_SEC && at - start < SECOND && lo <= at < hi
    ensures CountIn(Injections(start, count, Burst(n, at) + rest), lo, hi)
            == n + CountIn(Injections(start, count + n, rest), lo, hi)
    decreases n
  {
    if n == 0 {
      assert Burst(0, at) + rest == rest;
    } else {
      var all := Burst(n, at) + rest;
      assert all[1..] == Burst(n - 1, at) + rest;
      BurstInjects(start, count + 1, n - 1, at, rest, lo, hi);
      var more := Injections(start, count + 1, Burst(n - 1, at) + rest);
      assert Injections(start, count, all) == [at] + more;
      assert ([at] + more)[1..] == more;
    }
  }

  lemma {:induction false} BurstIsMonotone(n: nat, at: int, now: int, rest: seq<Packet>)
    requires now <= at && Monotone(at, rest)
    ensures Monotone(now, Burst(n, at) + rest)
    decreases n
  {
    if n == 0 {
      assert Burst(0, at) + rest == rest;
      if rest != [] {
        assert at <= rest[0].asked;
      }
    } else {
      assert (Burst(n, at) + rest)[1..] == Burst(n - 1, at) + rest;
      BurstIsMonotone(n - 1, at, at, rest);
    }
  }

  /** Forty in one second do happen: a full window at its end, then a full one at its start. */
  lemma FortyInOneSecond() returns (packets: seq<Packet>)
    ensures Monotone(0, packets)
    ensures CountIn(Injections(0, 0, packets), SECOND - 1, 2 * SECOND - 1) == 40
  {
    var reset := [Packet(true, true, SECOND, SECOND, SECOND)];
    var second := reset + Burst(19, SECOND);
    packets := Burst(20, SECOND - 1) + second;
    BurstIsMonotone(19, SECOND, SECOND, []);
    assert Burst(19, SECOND) + [] == Burst(19, SECOND);
    assert second[1..] == Burst(19, SECOND);
    BurstIsMonotone(20, SECOND - 1, 0, second);
    BurstInjects(0, 0, 20, SECOND - 1, second, SECOND - 1, 2 * SECOND - 1);
    BurstInjects(SECOND, 1, 19, SECOND, [], SECOND - 1, 2 * SECOND - 1);
    var more := Injections(SECOND, 1, Burst(19, SECOND));
    assert Injections(0, 20, second) == [SECOND] + more;
    assert ([SECOND] + more)[1..] == more;
  }
}
