/**
 * The shared interface MTU (src/tun/mod.rs): senders shrink it on an oversize packet and then note the
 * shrink on the raise gate, read loops raise it again once the gate's hold-off has passed, session
 * starts lower it to their path.
 */
module MtuControl {
  import opened Net

  /** Time is the monotone clock in nanoseconds. */
  const HOLDOFF := 15_000_000_000

  /** `u16::try_from(n).unwrap_or(u16::MAX)`. */
  function Clamp(n: nat): u16 {
    Min(n, 0xFFFF)
  }

  /** The MTU a path allows within the user's bound; None when the path carries no datagrams. */
  function PathMtu(user: u16, dgram: Option<nat>): Option<u16> {
    match dgram
    case None => None
    case Some(n) => Some(Min(user, Clamp(n)))
  }

  /** The interface MTU and its gate, as one task's call changes them under their locks. */
  class Iface {
    const user: u16
    var mtu: u16
    var raiseAfter: int

    constructor (user: u16, now: int)
      ensures this.user == user && mtu == user && raiseAfter == now
    {
      this.user, mtu, raiseAfter := user, user, now;
    }

    /** `shrink_tun_mtu`; None is the error of an OS that refuses the MTU, which the cell has taken on by then. */
    method Shrink(ceiling: nat, osOk: bool) returns (lowered: Option<bool>)
      modifies this`mtu
      ensures mtu == if ceiling < old(mtu) then ceiling else old(mtu)
      ensures lowered == Some(false) <==> mtu == old(mtu)
      ensures lowered == Some(true) <==> mtu < old(mtu) && osOk
    {
      if Clamp(ceiling) < mtu {
        mtu := Clamp(ceiling);
        if !osOk {
          return None;
        }
        return Some(true);
      }
      lowered := Some(false);
    }

    /** `note_mtu_shrink`. */
    method Note(now: int)
      modifies this`raiseAfter
      ensures raiseAfter == now + HOLDOFF
    {
      raiseAfter := now + HOLDOFF;
    }

    /** `refresh_tun_mtu` with the gate value read before the clock; false is the OS's refusal of the new MTU. */
    method Refresh(seen: int, now: int, dgram: Option<nat>, osOk: bool) returns (ok: bool)
      modifies this`mtu
      ensures mtu >= old(mtu) && (mtu > old(mtu) ==> now >= seen && mtu <= user)
      ensures now >= seen && dgram.Some? ==> mtu >= if dgram.value < user then dgram.value else user
      ensures mtu > old(mtu) ==> dgram.Some? && mtu <= dgram.value
      ensures ok <==> osOk || mtu == old(mtu)
      ensures mtu == Refreshed(user, old(mtu), seen, now, dgram)
    {
      if now < seen {
        return true;
      }
      var path := PathMtu(user, dgram);
      if path.Some? && path.value > mtu {
        mtu := path.value;
        return osOk;
      }
      ok := true;
    }

    /** A session start on the hub: `choose_mtu` or the user's bound, and only ever downwards. */
    method StartHubSession(dgram: Option<nat>)
      modifies this`mtu
      ensures mtu <= old(mtu) && mtu <= user && (dgram.Some? ==> mtu <= dgram.value)
      ensures mtu == old(mtu) || mtu == user || (dgram.Some? && mtu == dgram.value)
    {
      var session := PathMtu(user, dgram);
      var sessionMtu := if session.Some? then session.value else user;
      if sessionMtu < mtu {
        mtu := sessionMtu;
      }
    }

    /** A session start on a spoke; false is the error that ends the session at once. */
    method StartSpokeSession(dgram: Option<nat>, osOk: bool) returns (ok: bool)
      modifies this`mtu
      ensures ok <==> dgram.Some? && osOk
      ensures mtu == if ok then (if dgram.value < user then dgram.value else user) else old(mtu)
    {
      var session := PathMtu(user, dgram);
      if session.None? || !osOk {
        return false;
      }
      mtu := session.value;
      ok := true;
    }
  }

  function Refreshed(user: u16, mtu: u16, seen: int, now: int, dgram: Option<nat>): (m: u16)
    ensures m == mtu || (mtu < m <= user && now >= seen)
  {
    if now >= seen && PathMtu(user, dgram).Some? && PathMtu(user, dgram).value > mtu
    then PathMtu(user, dgram).value else mtu
  }

  // ---------------------------------------------------------------- all tasks together

  /**
   * `reading` is the gate value the refresh holding the MTU lock has read, if one holds it; `owed`
   * counts the senders that have shrunk the MTU and not yet noted it.
   */
  datatype State = State(user: u16, mtu: u16, gate: int, reading: Option<int>, owed: nat, now: int)

  datatype Step =
    | ShrinkStep(at: int, ceiling: nat, osOk: bool)
    | NoteStep(at: int)
    | ReadGate(at: int)
    | RefreshStep(at: int, dgram: Option<nat>)
    | HubSession(at: int, dgram: Option<nat>)
    | SpokeSession(at: int, dgram: Option<nat>, osOk: bool)

  predicate Enabled(s: State, step: Step) {
    && step.at >= s.now
    && match step
       case NoteStep(_) => s.owed > 0
       case RefreshStep(_, _) => s.reading.Some?
       case _ => s.reading.None?
  }

  function Next(s: State, step: Step): State
    requires Enabled(s, step)
  {
    var s := s.(now := step.at);
    match step
    case ShrinkStep(_, ceiling, osOk) =>
      if Clamp(ceiling) < s.mtu then s.(mtu := Clamp(ceiling), owed := if osOk then s.owed + 1 else s.owed) else s
    case NoteStep(at) => s.(gate := at + HOLDOFF, owed := s.owed - 1)
    case ReadGate(_) => s.(reading := Some(s.gate))
    case RefreshStep(at, dgram) => s.(mtu := Refreshed(s.user, s.mtu, s.reading.value, at, dgram), reading := None)
    case HubSession(_, dgram) => s.(mtu := Min(s.mtu, if dgram.Some? then PathMtu(s.user, dgram).value else s.user))
    case SpokeSession(_, dgram, osOk) => if dgram.Some? && osOk then s.(mtu := PathMtu(s.user, dgram).value) else s
  }

  /** What has happened so far: the last note, what of it the refresh under way could see, completed cycles. */
  datatype Log = Log(lastNote: Option<int>, seenNote: Option<int>, armed: bool, seenArmed: bool, cycles: seq<int>)

  predicate Raises(s: State, step: Step) {
    Enabled(s, step) && Next(s, step).mtu > s.mtu
  }

  /**
   * A cycle is a recorded shrink and a raise decided on a gate read after it; it completes with that
   * raise, and the next one needs a shrink recorded after that.
   */
  function Record(log: Log, s: State, step: Step): Log
    requires Enabled(s, step)
  {
    match step
    case NoteStep(at) => log.(lastNote := Some(at), armed := true)
    case ReadGate(_) => log.(seenNote := log.lastNote, seenArmed := log.armed)
    case RefreshStep(at, _) =>
      if Raises(s, step) && log.seenArmed then log.(armed := false, cycles := log.cycles + [at]) else log
    case _ => log
  }

  ghost predicate Run(states: seq<State>, logs: seq<Log>, steps: seq<Step>) {
    && |states| == |logs| == |steps| + 1
    && (forall i :: 0 <= i < |steps| ==>
          && Enabled(states[i], steps[i])
          && states[i + 1] == Next(states[i], steps[i])
          && logs[i + 1] == Record(logs[i], states[i], steps[i]))
  }

  /** `new_shared_iface_mtu` and `new_mtu_raise_gate`. */
  ghost predicate Initial(s: State, log: Log) {
    && s.mtu == s.user && s.gate == s.now && s.reading.None? && s.owed == 0
    && log == Log(None, None, false, false, [])
  }

  /** Over any interleaving, of hub and spoke sessions alike, the MTU stays within the user's bound. */
  lemma {:induction false} NeverAboveUser(states: seq<State>, logs: seq<Log>, steps: seq<Step>)
    requires Run(states, logs, steps) && Initial(states[0], logs[0])
    ensures states[|steps|].mtu <= states[|steps|].user == states[0].user
  {
    if steps != [] {
      var n := |steps| - 1;
      NeverAboveUser(states[..n + 1], logs[..n + 1], steps[..n]);
    }
  }

  /**
   * At any point of any run, what one more step makes of the MTU: a hub session's start takes it down to the path's
   * ceiling when that is lower and never up; a spoke session's start sets the smaller of ceiling and user's bound;
   * an oversize packet takes it down to the ceiling; a refresh past its gate takes it up to the smaller of the two.
   */
  lemma StepSetsMtu(states: seq<State>, logs: seq<Log>, steps: seq<Step>, step: Step)
    requires Run(states, logs, steps) && Initial(states[0], logs[0]) && Enabled(states[|steps|], step)
    ensures var s, t := states[|steps|], Next(states[|steps|], step).mtu;
            match step
            case HubSession(_, None) => t == s.mtu
            case HubSession(_, Some(n)) => (n < s.mtu ==> t == n) && (n >= s.mtu ==> t == s.mtu)
            case SpokeSession(_, None, _) => t == s.mtu
            case SpokeSession(_, Some(n), osOk) => t == if !osOk then s.mtu else if n < s.user then n else s.user
            case ShrinkStep(_, n, _) => (n < s.mtu ==> t == n) && (n >= s.mtu ==> t == s.mtu)
            case RefreshStep(_, None) => t == s.mtu
            case RefreshStep(at, Some(n)) =>
              && (at < s.reading.value ==> t == s.mtu)
              && (at >= s.reading.value && n <= s.user ==> t == if n > s.mtu then n else s.mtu)
              && (at >= s.reading.value && n > s.user ==> t == s.user)
            case ReadGate(_) => t == s.mtu
            case NoteStep(_) => t == s.mtu
  {
    NeverAboveUser(states, logs, steps);
  }

  /** What one more step makes of the gate: only a note moves it, to fifteen seconds after itself. */
  lemma StepSetsGate(s: State, step: Step)
    requires Enabled(s, step)
    ensures Next(s, step).gate == if step.NoteStep? then step.at + 15 * 1_000_000_000 else s.gate
    ensures Next(s, step).user == s.user
    ensures Next(s, step).owed == s.owed
              + (if step.ShrinkStep? && step.ceiling < s.mtu && step.osOk then 1 else if step.NoteStep? then -1 else 0)
  {
  }

  // ---------------------------------------------------------------- the hold-off

  ghost predicate Held(note: Option<int>, gate: int) {
    note.Some? ==> gate == note.value + HOLDOFF
  }

  ghost predicate Spaced(times: seq<int>) {
    forall i :: 0 <= i < |times| - 1 ==> times[i] + HOLDOFF <= times[i + 1]
  }

  /** A note made after the last completed cycle is at least as late as that cycle. */
  ghost predicate After(cycles: seq<int>, note: Option<int>) {
    note.Some? && (cycles != [] ==> cycles[|cycles| - 1] <= note.value)
  }

  ghost predicate Inv(s: State, log: Log) {
    && Held(log.lastNote, s.gate)
    && (log.lastNote.Some? ==> log.lastNote.value <= s.now)
    && (s.reading.Some? ==> Held(log.seenNote, s.reading.value))
    && Spaced(log.cycles)
    && (log.cycles != [] ==> log.cycles[|log.cycles| - 1] <= s.now)
    && (log.armed ==> After(log.cycles, log.lastNote))
    && (s.reading.Some? && log.seenArmed ==> After(log.cycles, log.seenNote))
  }

  lemma StepKeepsInv(s: State, log: Log, step: Step)
    requires Inv(s, log) && Enabled(s, step)
    ensures Inv(Next(s, step), Record(log, s, step))
  {
    var log' := Record(log, s, step);
    if log'.cycles != log.cycles {
      assert log'.cycles[..|log.cycles|] == log.cycles;
    }
  }

  lemma {:induction false} RunKeepsInv(states: seq<State>, logs: seq<Log>, steps: seq<Step>)
    requires Run(states, logs, steps) && Initial(states[0], logs[0])
    ensures Inv(states[|steps|], logs[|steps|])
  {
    if steps != [] {
      var n := |steps| - 1;
      RunKeepsInv(states[..n + 1], logs[..n + 1], steps[..n]);
      StepKeepsInv(states[n], logs[n], steps[n]);
    }
  }

  /**
   * The hold-off on the hub: at any point of any run, a step that raises the MTU comes at least 15
   * seconds after the last shrink recorded before the gate was read for it.
   */
  lemma NoRaiseInHoldoff(states: seq<State>, logs: seq<Log>, steps: seq<Step>, step: Step)
    requires Run(states, logs, steps) && Initial(states[0], logs[0])
    requires !step.SpokeSession? && Raises(states[|steps|], step)
    ensures step.RefreshStep?
    ensures logs[|steps|].seenNote.Some? ==> step.at >= logs[|steps|].seenNote.value + HOLDOFF
  {
    RunKeepsInv(states, logs, steps);
  }

  function CountIn(times: seq<int>, lo: int, hi: int): nat {
    if times == [] then 0
    else CountIn(times[..|times| - 1], lo, hi) + (if lo <= times[|times| - 1] <= hi then 1 else 0)
  }

  lemma {:induction false} SpacedCount(times: seq<int>, lo: int, hi: int)
    requires Spaced(times) && lo <= hi
    ensures CountIn(times, lo, hi) <= (hi - lo) / HOLDOFF + 1
    decreases |times|
  {
    if times != [] {
      var init, last := times[..|times| - 1], times[|times| - 1];
      if !(lo <= last <= hi) {
        SpacedCount(init, lo, hi);
      } else if init == [] {
      } else if last - HOLDOFF < lo {
        NoneIn(init, lo, hi);
      } else {
        SpacedCount(init, lo, last - HOLDOFF);
        CountShrinks(init, lo, last - HOLDOFF, hi);
      }
    }
  }

  lemma {:induction false} NoneIn(times: seq<int>, lo: int, hi: int)
    requires Spaced(times) && (times != [] ==> times[|times| - 1] < lo)
    ensures CountIn(times, lo, hi) == 0
  {
    if times != [] {
      NoneIn(times[..|times| - 1], lo, hi);
    }
  }

  lemma {:induction false} CountShrinks(times: seq<int>, lo: int, mid: int, hi: int)
    requires Spaced(times) && (times != [] ==> times[|times| - 1] <= mid) && mid <= hi
    ensures CountIn(times, lo, hi) == CountIn(times, lo, mid)
  {
    if times != [] {
      CountShrinks(times[..|times| - 1], lo, mid, hi);
    }
  }

  /** In any window of T nanoseconds of any run at most floor(T / 15 s) + 1 cycles complete. */
  lemma CycleBound(states: seq<State>, logs: seq<Log>, steps: seq<Step>, lo: int, hi: int)
    requires Run(states, logs, steps) && Initial(states[0], logs[0]) && lo <= hi
    ensures CountIn(logs[|steps|].cycles, lo, hi) <= (hi - lo) / HOLDOFF + 1
  {
    RunKeepsInv(states, logs, steps);
    SpacedCount(logs[|steps|].cycles, lo, hi);
  }

  // ---------------------------------------------------------------- where the hold-off does not reach

  /** Between a shrink and its note a refresh raises the MTU straight back. */
  lemma RaiseBeforeNote(s: State, ceiling: nat, dgram: nat)
    requires s.reading.None? && s.gate <= s.now && Clamp(ceiling) < s.mtu <= s.user && s.mtu <= Clamp(dgram)
    ensures var s1 := Next(s, ShrinkStep(s.now, ceiling, true));
            && Enabled(s1, ReadGate(s.now)) && s1.owed == s.owed + 1
            && Raises(Next(s1, ReadGate(s.now)), RefreshStep(s.now, Some(dgram)))
  {
  }

  /** A note made while a refresh is between its gate read and its clock read does not stop that refresh. */
  lemma RaiseAfterNote(s: State, ceiling: nat, dgram: nat)
    requires s.reading.None? && s.gate <= s.now && Clamp(ceiling) < s.mtu <= s.user && s.mtu <= Clamp(dgram)
    ensures var s2 := Next(Next(s, ShrinkStep(s.now, ceiling, true)), ReadGate(s.now));
            && Enabled(s2, NoteStep(s.now))
            && Raises(Next(s2, NoteStep(s.now)), RefreshStep(s.now, Some(dgram)))
  {
  }

  /** A hub raise less than 15 seconds after the last recorded shrink was decided on an older gate. */
  lemma EarlyRaiseSawAnOlderGate(states: seq<State>, logs: seq<Log>, steps: seq<Step>, step: Step)
    requires Run(states, logs, steps) && Initial(states[0], logs[0])
    requires !step.SpokeSession? && Raises(states[|steps|], step)
    requires logs[|steps|].lastNote.Some? && step.at < logs[|steps|].lastNote.value + HOLDOFF
    ensures step.RefreshStep? && logs[|steps|].seenNote != logs[|steps|].lastNote
  {
    NoRaiseInHoldoff(states, logs, steps, step);
  }

  /** A shrink still to be recorded holds nothing back: a refresh raises exactly as if none were. */
  lemma OwedNotesHoldNothing(s: State, dgram: Option<nat>, at: int)
    requires s.reading.Some? && at >= s.now
    ensures Raises(s, RefreshStep(at, dgram)) <==> Raises(s.(owed := 0), RefreshStep(at, dgram))
    ensures Raises(s, RefreshStep(at, dgram)) <==>
            at >= s.reading.value && PathMtu(s.user, dgram).Some? && PathMtu(s.user, dgram).value > s.mtu
  {
  }
}
