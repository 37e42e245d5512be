/** The stall watchdog of an embed pass (infra/claude/oracle-psi-watcher.ts, runEmbed): a check every 30 seconds
that signals a pass which has been silent for more than 15 minutes. Times are in milliseconds. */
module Watchdog {

  const STALL := 900000

  datatype Signal = Term(at: int) | Kill(at: int)

  datatype Event = Output(at: int) | Tick(at: int)

  datatype State = State(lastOutputAt: int, killed: bool, signals: seq<Signal>)

  function Start(now: int): State {
    State(now, false, [])
  }

  function Next(s: State, e: Event): State {
    match e
    case Output(now) => s.(lastOutputAt := now)
    case Tick(now) =>
      if now - s.lastOutputAt <= STALL then s
      else if s.killed then s.(signals := s.signals + [Kill(now)])
      else s.(killed := true, signals := s.signals + [Term(now)])
  }

  function After(s: State, es: seq<Event>): State
    decreases |es|
  {
    if es == [] then s else After(Next(s, es[0]), es[1..])
  }

  class Pass {
    var lastOutputAt: int
    var killed: bool
    /** what has been sent to the process */
    var signals: seq<Signal>

    ghost function Now(): State
      reads this
    {
      State(lastOutputAt, killed, signals)
    }

    constructor (now: int)
      ensures Now() == Start(now)
    {
      killed := false;
      lastOutputAt := now;
      signals := [];
    }

    method OnOutput(now: int)
      modifies this
      ensures Now() == Next(old(Now()), Output(now))
    {
      lastOutputAt := now;
    }

    method OnTick(now: int)
      modifies this
      ensures Now() == Next(old(Now()), Tick(now))
    {
      if now - lastOutputAt <= STALL {
        return;
      }
      if killed {
        signals := signals + [Kill(now)];
        return;
      }
      killed := true;
      signals := signals + [Term(now)];
    }
  }

  // ---- who is signalled ----

  /** Nothing is out of order, from one moment to another. */
  predicate InOrder(from: int, es: seq<Event>, end: int)
    decreases |es|
  {
    if es == [] then from <= end else from <= es[0].at && InOrder(es[0].at, es[1..], end)
  }

  /** From the last byte to the next one, and from the very last to the end, never more than the limit passes. */
  predicate Lively(lastByte: int, es: seq<Event>, end: int)
    decreases |es|
  {
    if es == [] then end - lastByte <= 900000
    else if es[0].Tick? then Lively(lastByte, es[1..], end)
    else es[0].at - lastByte <= 900000 && Lively(es[0].at, es[1..], end)
  }

  lemma {:induction false} LivelyNow(lastByte: int, now: int, es: seq<Event>, end: int)
    requires Lively(lastByte, es, end) && InOrder(now, es, end)
    ensures now - lastByte <= 900000
    decreases |es|
  {
    if es != [] {
      if es[0].Tick? {
        LivelyNow(lastByte, es[0].at, es[1..], end);
      }
    }
  }

  lemma {:induction false} LivelyUnsignalled(s: State, now: int, es: seq<Event>, end: int)
    requires Lively(s.lastOutputAt, es, end) && InOrder(now, es, end)
    ensures After(s, es).signals == s.signals
    decreases |es|
  {
    if es != [] {
      if es[0].Tick? {
        LivelyNow(s.lastOutputAt, es[0].at, es[1..], end);
      }
      LivelyUnsignalled(Next(s, es[0]), es[0].at, es[1..], end);
    }
  }

  /** A pass is never signalled, however long it runs, if it is never silent for more than the limit. */
  lemma NeverSignalled(start: int, es: seq<Event>, end: int)
    requires InOrder(start, es, end) && Lively(start, es, end)
    ensures After(Start(start), es).signals == []
  {
    LivelyUnsignalled(Start(start), start, es, end);
  }

  /** When the last byte before a moment of the run came, or else when the run began. */
  function LastByte(start: int, es: seq<Event>): int {
    if es == [] then start
    else if es[|es| - 1].Output? then es[|es| - 1].at
    else LastByte(start, es[..|es| - 1])
  }

  /** The ticks that find a stall, in order. */
  function Stalls(start: int, es: seq<Event>): seq<int> {
    if es == [] then []
    else
      var before, e := es[..|es| - 1], es[|es| - 1];
      Stalls(start, before) + (if e.Tick? && e.at - LastByte(start, before) > 900000 then [e.at] else [])
  }

  lemma {:induction false} AfterLast(s: State, es: seq<Event>, e: Event)
    ensures After(s, es + [e]) == Next(After(s, es), e)
    decreases |es|
  {
    if es == [] {
      assert ([e])[1..] == [];
      assert es + [e] == [e];
    } else {
      assert (es + [e])[1..] == es[1..] + [e];
      AfterLast(Next(s, es[0]), es[1..], e);
    }
  }

  /** A signal goes out at exactly the ticks more than the limit after the last byte: SIGTERM at the first of
      them and SIGKILL at every later one. */
  lemma {:induction false} SignalsExactly(start: int, es: seq<Event>)
    ensures var s, stalls := After(Start(start), es), Stalls(start, es);
            && s.lastOutputAt == LastByte(start, es)
            && |s.signals| == |stalls|
            && (s.killed <==> stalls != [])
            && forall i :: 0 <= i < |stalls| ==>
                 s.signals[i] == (if i == 0 then Term(stalls[i]) else Kill(stalls[i]))
  {
    if es != [] {
      var before, e := es[..|es| - 1], es[|es| - 1];
      SignalsExactly(start, before);
      AfterLast(Start(start), before, e);
      assert before + [e] == es;
    }
  }

  // ---- a pass that stays silent ----

  /** The next `n` checks after the one at `last`, with no output among them. */
  function Silence(last: int, n: nat): seq<Event>
    decreases n
  {
    if n == 0 then [] else [Tick(last + 30000)] + Silence(last + 30000, n - 1)
  }

  lemma {:induction false} Waits(s: State, last: int, n: nat)
    requires last + n * 30000 <= s.lastOutputAt + 900000
    ensures After(s, Silence(last, n)) == s
    decreases n
  {
    if n > 0 {
      assert Silence(last, n)[1..] == Silence(last + 30000, n - 1);
      Waits(s, last + 30000, n - 1);
    }
  }

  function Kills(last: int, n: nat): seq<Signal>
    decreases n
  {
    if n == 0 then [] else [Kill(last + 30000)] + Kills(last + 30000, n - 1)
  }

  lemma {:induction false} Escalates(s: State, last: int, n: nat)
    requires s.killed && last + 30000 > s.lastOutputAt + 900000
    ensures After(s, Silence(last, n)) == s.(signals := s.signals + Kills(last, n))
    decreases n
  {
    if n > 0 {
      assert Silence(last, n)[1..] == Silence(last + 30000, n - 1);
      var t := Next(s, Tick(last + 30000));
      Escalates(t, last + 30000, n - 1);
      assert s.signals + [Kill(last + 30000)] + Kills(last + 30000, n - 1) == s.signals + Kills(last, n);
    }
  }

  lemma {:induction false} SilenceSplit(s: State, last: int, n: nat, k: nat)
    requires k <= n
    ensures After(s, Silence(last, n)) == After(After(s, Silence(last, k)), Silence(last + k * 30000, n - k))
    decreases n
  {
    if k > 0 {
      assert Silence(last, n)[1..] == Silence(last + 30000, n - 1);
      assert Silence(last, k)[1..] == Silence(last + 30000, k - 1);
      SilenceSplit(Next(s, Tick(last + 30000)), last + 30000, n - 1, k - 1);
    }
  }

  /** A pass that goes silent while unsignalled gets SIGTERM at the first check more than the limit after its last
      byte, which is at most one check later than the limit, and SIGKILL at every check after that. */
  lemma SilentPass(s: State, last: int, n: nat, k: nat)
    requires !s.killed && last <= s.lastOutputAt + 900000
    requires last + k * 30000 <= s.lastOutputAt + 900000 < last + (k + 1) * 30000
    requires k < n
    ensures var term := last + (k + 1) * 30000;
            && s.lastOutputAt + 900000 < term <= s.lastOutputAt + 900000 + 30000
            && After(s, Silence(last, n)).signals == s.signals + [Term(term)] + Kills(term, n - k - 1)
  {
    var now := last + k * 30000;
    SilenceSplit(s, last, n, k);
    Waits(s, last, k);
    assert Silence(now, n - k)[1..] == Silence(now + 30000, n - k - 1);
    Escalates(Next(s, Tick(now + 30000)), now + 30000, n - k - 1);
  }
}
