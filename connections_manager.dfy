/** The connections manager of the trades watcher: a count of (re)connections in the current
    time window with a per-socket log of reconnection times, a warning once the count
    reaches the exchange's cap, and a periodic job that reports and resets the window. */
module ConnectionsManager {

  /** What goes to the logger: the cap warning, and the reset job's report of the window. */
  datatype LogEntry =
    | CapReached(exchangeName: string, cap: int)
    | ResetReport(total: int, events: map<string, seq<int>>)

  datatype ConnState = ConnState(count: int, cap: int, exchangeName: string,
                                 events: map<string, seq<int>>, log: seq<LogEntry>)

  const DefaultCap := 300
  const DefaultExchangeName := "unnamed exchange"

  /** `trackReconnectionEvent(id)` at time `now`: one more connection, `now` appended to the
      socket's times (a new list when it has none), and the warning when the count has
      reached the cap. */
  function Track(s: ConnState, id: string, now: int): ConnState {
    var events := if id in s.events then s.events[id := s.events[id] + [now]] else s.events[id := [now]];
    var count := s.count + 1;
    var log := if count >= s.cap then s.log + [CapReached(s.exchangeName, s.cap)] else s.log;
    s.(count := count, events := events, log := log)
  }

  /** The reset job's callback: report when the count is non-zero (falsy 0 skips it), then
      reset the window. */
  function Tick(s: ConnState): ConnState {
    var log := if s.count != 0 then s.log + [ResetReport(s.count, s.events)] else s.log;
    s.(count := 0, events := map[], log := log)
  }

  /** A tick always ends in the reset window, reports exactly when the count was non-zero,
      and a second tick straight after reports nothing. */
  lemma TickResets(s: ConnState)
    ensures Tick(s).count == 0 && Tick(s).events == map[]
    ensures Tick(s).cap == s.cap && Tick(s).exchangeName == s.exchangeName
    ensures s.count != 0 ==> Tick(s).log == s.log + [ResetReport(s.count, s.events)]
    ensures s.count == 0 ==> Tick(s).log == s.log
    ensures Tick(Tick(s)) == Tick(s)
  {
  }

  /** The state after a sequence of (socket id, time) reconnections. */
  function Replay(s: ConnState, ops: seq<(string, int)>): ConnState
    decreases |ops|
  {
    if ops == [] then s
    else
      var last := ops[|ops| - 1];
      Track(Replay(s, ops[..|ops| - 1]), last.0, last.1)
  }

  /** The times recorded for one socket id, in order. */
  function TimesOf(ops: seq<(string, int)>, id: string): seq<int>
    decreases |ops|
  {
    if ops == [] then []
    else
      var last := ops[|ops| - 1];
      TimesOf(ops[..|ops| - 1], id) + (if last.0 == id then [last.1] else [])
  }

  function IdsOf(ops: seq<(string, int)>): set<string>
    decreases |ops|
  {
    if ops == [] then {} else IdsOf(ops[..|ops| - 1]) + {ops[|ops| - 1].0}
  }

  /** Reconnections count one each, and every socket's list holds the times of its own
      reconnections in order after what it held before; the cap and the name are untouched. */
  lemma {:induction false} ReplayEvents(s: ConnState, ops: seq<(string, int)>)
    ensures var r := Replay(s, ops);
      r.count == s.count + |ops| && r.cap == s.cap && r.exchangeName == s.exchangeName &&
      (forall id :: id in r.events <==> id in s.events || id in IdsOf(ops)) &&
      forall id :: id in r.events ==>
        r.events[id] == (if id in s.events then s.events[id] else []) + TimesOf(ops, id)
    decreases |ops|
  {
    if ops != [] {
      var init := ops[..|ops| - 1];
      var last := ops[|ops| - 1];
      ReplayEvents(s, init);
      var mid := Replay(s, init);
      var r := Replay(s, ops);
      forall id | id in r.events
        ensures r.events[id] == (if id in s.events then s.events[id] else []) + TimesOf(ops, id)
      {
        if id == last.0 && id !in mid.events {
          assert TimesOf(init, id) == [] by {
            TimesOfAbsent(init, id);
          }
        }
      }
    }
  }

  lemma {:induction false} TimesOfAbsent(ops: seq<(string, int)>, id: string)
    requires id !in IdsOf(ops)
    ensures TimesOf(ops, id) == []
    decreases |ops|
  {
    if ops != [] {
      TimesOfAbsent(ops[..|ops| - 1], id);
    }
  }

  /** How many of n reconnections starting from count c0 reach cap: the k-th one does when
      c0 + k >= cap. */
  function WarningsFor(c0: int, cap: int, n: nat): nat {
    var first := if cap - c0 > 1 then cap - c0 else 1;
    if n >= first then n - first + 1 else 0
  }

  /** Each reconnection adds a warning exactly when the count reaches the cap, so n
      reconnections from count c0 add WarningsFor(c0, cap, n) warnings and nothing else. */
  lemma {:induction false} ReplayWarnings(s: ConnState, ops: seq<(string, int)>)
    ensures var r := Replay(s, ops);
      |r.log| == |s.log| + WarningsFor(s.count, s.cap, |ops|) && r.log[..|s.log|] == s.log &&
      forall i :: |s.log| <= i < |r.log| ==> r.log[i] == CapReached(s.exchangeName, s.cap)
    decreases |ops|
  {
    if ops != [] {
      var init := ops[..|ops| - 1];
      ReplayWarnings(s, init);
      ReplayEvents(s, init);
    }
  }

  /** After a reset, the window warns first on the cap-th reconnection. */
  lemma QuietBelowCap(s: ConnState, ops: seq<(string, int)>)
    requires s.count == 0 && 0 <= |ops| < s.cap
    ensures Replay(s, ops).log == s.log
  {
    ReplayWarnings(s, ops);
    assert WarningsFor(0, s.cap, |ops|) == 0;
    assert Replay(s, ops).log == Replay(s, ops).log[..|s.log|];
  }

  /** `ConnectionsManager`. `new Date()` is the `now` parameter; the logger is the `log`
      field; scheduling the job on the cron registry is not modelled, its callback is `Tick`. */
  class ConnectionsManagerHelper {
    var connectionsCount: int
    var maxConnectionsCap: int
    var exchangeName: string
    var reconnectionEvents: map<string, seq<int>>
    var log: seq<LogEntry>

    function State(): ConnState
      reads this
    {
      ConnState(connectionsCount, maxConnectionsCap, exchangeName, reconnectionEvents, log)
    }

    constructor()
      ensures State() == ConnState(0, DefaultCap, DefaultExchangeName, map[], [])
    {
      connectionsCount := 0;
      maxConnectionsCap := DefaultCap;
      exchangeName := DefaultExchangeName;
      reconnectionEvents := map[];
      log := [];
    }

    method SetExchangeName(name: string)
      modifies this
      ensures State() == old(State()).(exchangeName := name)
    {
      exchangeName := name;
    }

    method SetMaxConnectionsCap(value: int)
      modifies this
      ensures State() == old(State()).(cap := value)
    {
      maxConnectionsCap := value;
    }

    /** `reset`: the count back to 0 and no reconnection events. */
    method Reset()
      modifies this
      ensures State() == old(State()).(count := 0, events := map[])
    {
      connectionsCount := 0;
      reconnectionEvents := map[];
    }

    /** `incrementConnectionsCount(inc = 1)`. */
    method IncrementConnectionsCount(inc: int := 1)
      modifies this
      ensures State() == old(State()).(count := old(connectionsCount) + inc)
    {
      connectionsCount := connectionsCount + inc;
    }

    method TrackReconnectionEvent(id: string, now: int)
      modifies this
      ensures State() == Track(old(State()), id, now)
    {
      IncrementConnectionsCount();
      if id in reconnectionEvents {
        reconnectionEvents := reconnectionEvents[id := reconnectionEvents[id] + [now]];
      } else {
        reconnectionEvents := reconnectionEvents[id := [now]];
      }
      if connectionsCount >= maxConnectionsCap {
        log := log + [CapReached(exchangeName, maxConnectionsCap)];
      }
    }

    /** The callback of the job `scheduleConnectionsResetJob` registers. */
    method ResetJobTick()
      modifies this
      ensures State() == Tick(old(State()))
    {
      if connectionsCount != 0 {
        log := log + [ResetReport(connectionsCount, reconnectionEvents)];
      }
      Reset();
    }
  }
}
