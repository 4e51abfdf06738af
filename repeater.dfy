/**
 * One tank repeater of TankRepeater.py: it holds the last level and capacity forwarded for
 * one tank and, on its periodic tick, republishes them on a bus service of its own. The
 * service is created lazily, on the first tick after the first update, and a watchdog on
 * the tick count drives the service's /Connected path.
 *
 * The repeater is modelled twice: `RepeaterState` and the step functions below say what
 * each operation does to the whole state, and the class `Repeater` carries out the same
 * operations on mutable fields, each method proved to agree with its step function.
 */
module TankRepeater {
  import opened Wrappers

  /** The "no data" marker in a level or capacity. */
  const NoData: real := -99.0

  /** Silent ticks tolerated before the tank is reported as not responding (TankRepeater.py:107). */
  const RepeaterTimeout: int := 6

  /** Prefix of the repeater services' names; the tank number is appended. */
  const RepeaterServiceName: string := "com.victronenergy.tank.repeater"

  /** The writeable paths of a repeater service. */
  datatype Path = LevelPath | CapacityPath | RemainingPath | FluidTypePath

  /** What a repeater's bus service publishes; /Connected is 1 or 0. */
  datatype Published = Published(Connected: int, Level: real, Capacity: real, Remaining: real, FluidType: real)

  datatype RepeaterState = RepeaterState(
    Tank: int,
    Level: real,
    Capacity: real,
    UpdateReceived: bool,
    TimeoutCount: int,
    Service: Option<Published>)  // None until the service is created

  function Initial(tank: int): RepeaterState
  {
    RepeaterState(tank, 0.0, 0.0, false, 0, None)
  }

  /** The paths of a freshly created service. */
  function Created(tank: int): Published
  {
    Published(0, 0.0, 0.0, 0.0, tank as real)
  }

  /**
   * The watchdog's invariant: the count never passes RepeaterTimeout + 1; without a service
   * it is 0; a service shows /Connected = 1 exactly while the count is between 1 and
   * RepeaterTimeout + 1, and /Connected = 0 only when just created (count 0) or timed out.
   */
  ghost predicate Inv(s: RepeaterState)
  {
    0 <= s.TimeoutCount <= RepeaterTimeout + 1 &&
    match s.Service
    case None => s.TimeoutCount == 0
    case Some(p) =>
      (p.Connected == 1 && 1 <= s.TimeoutCount) ||
      (p.Connected == 0 && (s.TimeoutCount == 0 || s.TimeoutCount == RepeaterTimeout + 1))
  }

  lemma InitialValid(tank: int)
    ensures Inv(Initial(tank)) && Initial(tank).Tank == tank
    ensures Initial(tank).Service.None? && !Initial(tank).UpdateReceived
  {
  }

  /** `UpdateRepeater`: a -99 leaves its field alone; the update is marked pending. */
  function Updated(s: RepeaterState, level: real, capacity: real): (r: RepeaterState)
    ensures r.UpdateReceived
    ensures level != NoData ==> r.Level == level
    ensures level == NoData ==> r.Level == s.Level
    ensures capacity != NoData ==> r.Capacity == capacity
    ensures capacity == NoData ==> r.Capacity == s.Capacity
    ensures r == s.(Level := r.Level, Capacity := r.Capacity, UpdateReceived := true)
    ensures Inv(s) ==> Inv(r)
  {
    s.(Level := if level != NoData then level else s.Level,
       Capacity := if capacity != NoData then capacity else s.Capacity,
       UpdateReceived := true)
  }

  /** `_handlechangedvalue`: a write to a service path only marks an update as pending. */
  function ChangeFlagged(s: RepeaterState): (r: RepeaterState)
    ensures r.UpdateReceived && r == s.(UpdateReceived := true)
    ensures Inv(s) ==> Inv(r)
  {
    s.(UpdateReceived := true)
  }

  /** The service storing a value written to one of its paths by another process. */
  function Written(s: RepeaterState, path: Path, value: real): RepeaterState
    requires s.Service.Some?
  {
    var p := s.Service.value;
    s.(Service := Some(match path
      case LevelPath => p.(Level := value)
      case CapacityPath => p.(Capacity := value)
      case RemainingPath => p.(Remaining := value)
      case FluidTypePath => p.(FluidType := value)))
  }

  /** The stored values copied to the service; the watchdog count restarts. */
  function Republished(s: RepeaterState): RepeaterState
    requires s.Service.Some?
  {
    var p := s.Service.value;
    s.(Service := Some(p.(Level := s.Level, Capacity := s.Capacity, Remaining := s.Capacity * s.Level / 100.0)),
       UpdateReceived := false,
       TimeoutCount := 0)
  }

  /** The watchdog's part of a tick on a state whose service is `p`. */
  function Watchdog(s: RepeaterState, p: Published): RepeaterState
  {
    var connected := if s.TimeoutCount == 0 && p.Connected == 0 then 1 else p.Connected;
    if s.TimeoutCount > RepeaterTimeout then
      s.(Service := Some(p.(Connected := if connected == 1 then 0 else connected)))
    else
      s.(Service := Some(p.(Connected := connected)), TimeoutCount := s.TimeoutCount + 1)
  }

  /**
   * `_update`, the repeater's tick. A pending update without a service only creates the
   * service, leaving the update pending for the next tick; with a service the update is
   * published. Once the service exists, the watchdog runs.
   */
  function Ticked(s: RepeaterState): (r: RepeaterState)
    ensures Inv(s) ==> Inv(r)
    ensures r.Tank == s.Tank && r.Level == s.Level && r.Capacity == s.Capacity
    ensures s.Service.None? && !s.UpdateReceived ==> r == s
    ensures s.Service.None? && s.UpdateReceived ==>
              r == s.(Service := Some(Created(s.Tank)), TimeoutCount := 0)
    ensures s.Service.Some? ==> r.Service.Some? && !r.UpdateReceived
    ensures Inv(s) && s.Service.Some? && s.UpdateReceived ==>
              r.Service.value == s.Service.value.(Connected := 1, Level := s.Level,
                Capacity := s.Capacity, Remaining := s.Capacity * s.Level / 100.0) &&
              r.TimeoutCount == 1
    ensures s.Service.Some? && !s.UpdateReceived ==>
              r.Service.value == s.Service.value.(Connected := r.Service.value.Connected)
  {
    if s.UpdateReceived && s.Service.None? then
      s.(Service := Some(Created(s.Tank)), TimeoutCount := 0)
    else
      var s1 := if s.UpdateReceived then Republished(s) else s;
      match s1.Service
      case None => s1
      case Some(p) => Watchdog(s1, p)
  }

  /** The count the watchdog looks at in a tick of a state that has a service. */
  function Seen(s: RepeaterState): int
  {
    if s.UpdateReceived then 0 else s.TimeoutCount
  }

  /**
   * /Connected goes from 0 to 1 only when the watchdog sees a count of 0, and from 1 to 0
   * only when it sees a count above RepeaterTimeout; in between it stays and the count
   * goes up by one.
   */
  lemma WatchdogTransitions(s: RepeaterState)
    requires Inv(s) && s.Service.Some?
    ensures var before, after := s.Service.value.Connected, Ticked(s).Service.value.Connected;
            (Seen(s) == 0 ==> after == 1) &&
            (Seen(s) > RepeaterTimeout ==> after == 0 && Ticked(s).TimeoutCount == Seen(s)) &&
            (0 < Seen(s) <= RepeaterTimeout ==> after == before && Ticked(s).TimeoutCount == Seen(s) + 1) &&
            (before == 0 && after == 1 ==> Seen(s) == 0) &&
            (before == 1 && after == 0 ==> Seen(s) > RepeaterTimeout)
  {
  }

  /** `n` ticks in a row, with nothing forwarded in between. */
  function Ticks(s: RepeaterState, n: nat): RepeaterState
    decreases n
  {
    if n == 0 then s else Ticks(Ticked(s), n - 1)
  }

  /** Without updates the count climbs by one per tick up to RepeaterTimeout + 1. */
  lemma {:induction false} SilentTicks(s: RepeaterState, n: nat)
    requires Inv(s) && s.Service.Some? && !s.UpdateReceived
    decreases n
    ensures var r := Ticks(s, n);
            Inv(r) && r.Service.Some? && !r.UpdateReceived &&
            r.TimeoutCount == if s.TimeoutCount + n > RepeaterTimeout + 1 then RepeaterTimeout + 1
                              else s.TimeoutCount + n
  {
    if n > 0 {
      SilentTicks(Ticked(s), n - 1);
    }
  }

  /** RepeaterTimeout + 2 ticks without any update always leave the tank not responding. */
  lemma SilenceDisconnects(s: RepeaterState)
    requires Inv(s) && s.Service.Some? && !s.UpdateReceived
    ensures Ticks(s, RepeaterTimeout + 2).Service.Some?
    ensures Ticks(s, RepeaterTimeout + 2).Service.value.Connected == 0
  {
    SilentTicks(s, RepeaterTimeout + 1);
    var t := Ticks(s, RepeaterTimeout + 1);
    assert Ticks(s, RepeaterTimeout + 2) == Ticks(t, 1) by {
      TicksSplit(s, RepeaterTimeout + 1, 1);
    }
    WatchdogTransitions(t);
  }

  lemma {:induction false} TicksSplit(s: RepeaterState, m: nat, n: nat)
    ensures Ticks(s, m + n) == Ticks(Ticks(s, m), n)
    decreases m
  {
    if m > 0 {
      TicksSplit(Ticked(s), m - 1, n);
    }
  }

  /**
   * The first update of a tank creates its service on the next tick with the initial
   * values and publishes the update only on the tick after that.
   */
  lemma FirstUpdatePublishedOnSecondTick(s: RepeaterState, level: real, capacity: real)
    requires Inv(s) && s.Service.None?
    ensures var u := Updated(s, level, capacity);
            Ticked(u).Service == Some(Created(s.Tank)) &&
            Ticked(u).UpdateReceived &&
            Ticked(Ticked(u)).Service.value ==
              Published(1, u.Level, u.Capacity, u.Capacity * u.Level / 100.0, s.Tank as real)
  {
  }

  /**
   * A value written by another process to /Level, /Capacity or /Remaining is overwritten
   * with the repeater's own values on the next tick; a written /FluidType is kept.
   */
  lemma ExternalWriteOverwritten(s: RepeaterState, path: Path, value: real)
    requires Inv(s) && s.Service.Some?
    ensures var r := Ticked(ChangeFlagged(Written(s, path, value)));
            r.Service.value.Level == s.Level && r.Service.value.Capacity == s.Capacity &&
            r.Service.value.Remaining == s.Capacity * s.Level / 100.0 &&
            r.Service.value.FluidType == (if path == FluidTypePath then value else s.Service.value.FluidType)
  {
  }

  /** Forwarding the same values twice is the same as forwarding them once. */
  lemma UpdatedIdempotent(s: RepeaterState, level: real, capacity: real)
    ensures Updated(Updated(s, level, capacity), level, capacity) == Updated(s, level, capacity)
  {
  }

  class Repeater {
    const Tank: int
    var Level: real
    var Capacity: real
    var UpdateReceived: bool
    var TimeoutCount: int
    var Service: Option<Published>

    function State(): RepeaterState
      reads this
    {
      RepeaterState(Tank, Level, Capacity, UpdateReceived, TimeoutCount, Service)
    }

    ghost predicate Valid()
      reads this
    {
      Inv(State())
    }

    /** A repeater for `tank`; its service is not created yet. */
    constructor (tank: int)
      ensures State() == Initial(tank) && Valid()
    {
      Tank := tank;
      Level := 0.0;
      Capacity := 0.0;
      UpdateReceived := false;
      TimeoutCount := 0;
      Service := None;
    }

    method UpdateRepeater(level: real, capacity: real) returns (handled: bool)
      requires Valid()
      modifies this
      ensures Valid()
      ensures State() == Updated(old(State()), level, capacity) && handled
    {
      if level != NoData {
        Level := level;
      }
      if capacity != NoData {
        Capacity := capacity;
      }
      UpdateReceived := true;
      handled := true;
    }

    /**
     * The callback of the writeable paths: it only flags an update and accepts the write.
     * Storing the written value in the service is the bus library's part, modelled by `Written`.
     */
    method HandleChangedValue(path: Path, value: real) returns (accepted: bool)
      requires Valid()
      modifies this
      ensures Valid()
      ensures State() == ChangeFlagged(old(State())) && accepted
    {
      UpdateReceived := true;
      accepted := true;
    }

    /** `_createDbusService`, reduced to the paths the repeater manages. */
    method CreateService()
      modifies this
      ensures Valid()
      ensures State() == old(State()).(Service := Some(Created(Tank)), TimeoutCount := 0)
    {
      Service := Some(Published(0, 0.0, 0.0, 0.0, Tank as real));
      TimeoutCount := 0;
    }

    /** `_update`; it always asks to be called again. */
    method Tick() returns (again: bool)
      requires Valid()
      modifies this
      ensures Valid()
      ensures State() == Ticked(old(State())) && again
    {
      again := true;
      if UpdateReceived {
        if Service == None {
          CreateService();
          return;
        }
        Service := Some(Service.value.(Level := Level, Capacity := Capacity, Remaining := Capacity * Level / 100.0));
        UpdateReceived := false;
        TimeoutCount := 0;
      }
      ghost var s1 := State();
      assert old(UpdateReceived) ==> s1.Service.value.Remaining == Republished(old(State())).Service.value.Remaining;
      assert s1 == if old(UpdateReceived) then Republished(old(State())) else old(State());
      if Service == None {
        return;
      }
      assert Ticked(old(State())) == Watchdog(s1, Service.value);
      if TimeoutCount == 0 {
        if Service.value.Connected == 0 {
          Service := Some(Service.value.(Connected := 1));
        }
      }
      if TimeoutCount > RepeaterTimeout {
        if Service.value.Connected == 1 {
          Service := Some(Service.value.(Connected := 0));
        }
      } else {
        TimeoutCount := TimeoutCount + 1;
      }
    }
  }
}
