/**
 * The incoming-tank correlator of TankRepeater.py. One upstream tank service reports several
 * tanks in rotation: its /FluidType path says which tank the current /Level and /Capacity
 * belong to. Change signals of the three paths are buffered, and each /FluidType change
 * forwards the buffered level and capacity to the repeater of the tank selected before it.
 * A poll once per tick finds the upstream service, samples it as a fallback for missed
 * signals, and forwards a sample when two reads of the selector agree.
 *
 * The bus is abstracted into inputs: the list of service names with their /ProductId (or
 * the exception reading it raised), the poll's sample (or the exception), and the signals'
 * sender and text/value pair. As for the repeater, the step functions on
 * `CorrelatorState` say what each operation does; the class `Correlator` does it on
 * fields and on its array of six repeaters, proved to agree with the step functions.
 */
module IncomingTank {
  import opened Wrappers
  import TankRepeater

  /** The "no tank" marker of LastTank. */
  const NoTank: int := -99

  /** The number of repeaters, one per fluid type. */
  const RepeaterCount: int := 6

  /** The rescan counter runs from 0 to this value. */
  const SearchDelayMax: int := 10

  /** Polls without a signal before a polled value is adopted into the buffer. */
  const FallbackPolls: int := 10

  /** Name prefix of the tank services on the bus. */
  const TankServicePrefix: string := "com.victronenergy.tank"

  /** The setting holding the product id of the upstream tank service. */
  const ProductIdSetting: string := "incomingTankProdIdNv"

  /** A bus name with the outcome of reading its /ProductId (None: the read raised). */
  datatype ServiceEntry = ServiceEntry(name: string, productId: Option<int>, owner: string)

  /** The "Text" and "Value" entries of a PropertiesChanged signal. */
  datatype Change = Change(text: string, value: real)

  /** The poll's four reads: selector, level, capacity, selector again; or an exception. */
  datatype PollReply = PollFailed | PollSample(tank: int, level: real, capacity: real, tank2: int)

  /** A call `RepeaterList[tank].UpdateRepeater(level, capacity)`. */
  datatype Dispatch = Dispatch(tank: int, level: real, capacity: real)

  datatype CorrelatorState = CorrelatorState(
    DbusOK: bool,         // the upstream service has been found and answers
    UniqueName: string,   // its unique bus name, the sender its signals carry
    Source: string,       // the service the poll reads
    LastTank: int,
    LastLevel: real,
    LastCapacity: real,
    NoLevelCount: int,
    NoCapacityCount: int,
    AlreadyLogged: bool,
    NewProdId: bool,      // the product id setting changed: rescan at the next poll
    SearchDelay: int,
    NameNv: string)       // the setting naming the upstream service

  /** The state at start-up; `nameNv` is the persisted service-name setting. */
  function Initial(nameNv: string): CorrelatorState
  {
    CorrelatorState(false, "", "", NoTank, TankRepeater.NoData, TankRepeater.NoData, 0, 0, false, true, 0, nameNv)
  }

  ghost predicate Inv(s: CorrelatorState)
  {
    0 <= s.SearchDelay <= SearchDelayMax && 0 <= s.NoLevelCount && 0 <= s.NoCapacityCount
  }

  lemma InitialValid(nameNv: string)
    ensures Inv(Initial(nameNv)) && Initial(nameNv).NewProdId && !Initial(nameNv).DbusOK
  {
  }

  /** Python's `int()` of a float: truncation toward zero. */
  function Trunc(x: real): (r: int)
    ensures 0.0 <= x ==> r as real <= x < r as real + 1.0
    ensures x < 0.0 ==> r as real - 1.0 < x <= r as real
  {
    if x >= 0.0 then x.Floor else -((-x).Floor)
  }

  /** A signal is taken only from the found upstream service and only with a non-empty text. */
  predicate Accepted(s: CorrelatorState, sender: string, change: Change)
  {
    s.DbusOK && sender == s.UniqueName && change.text != ""
  }

  /**
   * `FluidTypeHandler`: forwards the buffered level and capacity to the previously selected
   * tank, if that is a repeater's index, then stores the new selector unchecked. The
   * buffered level and capacity are kept.
   */
  function FluidType(s: CorrelatorState, sender: string, change: Change): (r: (CorrelatorState, Option<Dispatch>))
    ensures !Accepted(s, sender, change) ==> r == (s, None)
    ensures Accepted(s, sender, change) ==> r.0 == s.(LastTank := Trunc(change.value))
    ensures r.1.Some? <==> Accepted(s, sender, change) && 0 <= s.LastTank < RepeaterCount
    ensures r.1.Some? ==> r.1.value == Dispatch(s.LastTank, s.LastLevel, s.LastCapacity)
    ensures Inv(s) ==> Inv(r.0)
  {
    if !s.DbusOK || sender != s.UniqueName then (s, None)
    else if change.text == "" then (s, None)
    else
      var tank := Trunc(change.value);
      var d := if s.LastTank >= 0 && s.LastTank < RepeaterCount
               then Some(Dispatch(s.LastTank, s.LastLevel, s.LastCapacity)) else None;
      (s.(LastTank := tank), d)
  }

  /** `FluidLevelHandler`: buffers the level of an accepted signal. */
  function FluidLevel(s: CorrelatorState, sender: string, change: Change): (r: CorrelatorState)
    ensures r == s.(LastLevel := r.LastLevel)
    ensures Accepted(s, sender, change) ==> r.LastLevel == change.value
    ensures !Accepted(s, sender, change) ==> r == s
    ensures Inv(s) ==> Inv(r)
  {
    if !s.DbusOK || sender != s.UniqueName then s
    else if change.text != "" then s.(LastLevel := change.value)
    else s
  }

  /** `FluidCapacityHandler`: buffers the capacity of an accepted signal. */
  function FluidCapacity(s: CorrelatorState, sender: string, change: Change): (r: CorrelatorState)
    ensures r == s.(LastCapacity := r.LastCapacity)
    ensures Accepted(s, sender, change) ==> r.LastCapacity == change.value
    ensures !Accepted(s, sender, change) ==> r == s
    ensures Inv(s) ==> Inv(r)
  {
    if !s.DbusOK || sender != s.UniqueName then s
    else if change.text != "" then s.(LastCapacity := change.value)
    else s
  }

  /** `IncomingTankSettingChanged`: only the product id setting requests a rescan. */
  function SettingChanged(s: CorrelatorState, name: string): (r: CorrelatorState)
    ensures r.NewProdId <==> s.NewProdId || name == ProductIdSetting
    ensures r == s.(NewProdId := r.NewProdId)
    ensures Inv(s) ==> Inv(r)
  {
    if name == ProductIdSetting then s.(NewProdId := true) else s
  }

  /**
   * Four signals from the upstream service, selector t1, level, capacity, selector t2, forward
   * exactly that level and capacity to tank t1 and leave t2 selected.
   */
  lemma SignalsCorrelate(s: CorrelatorState, sender: string, t1: Change, level: Change, capacity: Change, t2: Change)
    requires s.DbusOK && sender == s.UniqueName
    requires t1.text != "" && level.text != "" && capacity.text != "" && t2.text != ""
    requires 0 <= Trunc(t1.value) < RepeaterCount
    ensures var s1 := FluidType(s, sender, t1).0;
            var s3 := FluidCapacity(FluidLevel(s1, sender, level), sender, capacity);
            FluidType(s3, sender, t2) ==
              (s3.(LastTank := Trunc(t2.value)), Some(Dispatch(Trunc(t1.value), level.value, capacity.value)))
  {
  }

  // The scan for the upstream service.

  /** A name the scan compares: a tank service that is not one of the repeaters. */
  predicate Candidate(e: ServiceEntry)
  {
    !(TankRepeater.RepeaterServiceName <= e.name) && TankServicePrefix <= e.name
  }

  datatype ScanResult = Found(index: nat) | NotFound | Raised

  /** The scan from position `from` on: the first candidate with the wanted product id. */
  function Scan(services: seq<ServiceEntry>, nv: int, from: nat): (r: ScanResult)
    ensures r.Found? ==> from <= r.index < |services| && services[r.index].productId == Some(nv)
    decreases |services| - from
  {
    if from >= |services| then NotFound
    else if !Candidate(services[from]) then Scan(services, nv, from + 1)
    else match services[from].productId
      case None => Raised
      case Some(id) => if id == nv then Found(from) else Scan(services, nv, from + 1)
  }

  /** Every candidate in from..to-1 answered with another product id. */
  ghost predicate Passed(services: seq<ServiceEntry>, nv: int, from: int, to: int)
    requires 0 <= from <= to <= |services|
  {
    forall j | from <= j < to :: Candidate(services[j]) ==>
      services[j].productId.Some? && services[j].productId.value != nv
  }

  lemma {:induction false} ScanCases(services: seq<ServiceEntry>, nv: int, from: nat)
    requires from <= |services|
    ensures Scan(services, nv, from).Found? ==>
              var i := Scan(services, nv, from).index;
              from <= i < |services| && Candidate(services[i]) &&
              services[i].productId == Some(nv) && Passed(services, nv, from, i)
    ensures Scan(services, nv, from).Raised? ==>
              exists i | from <= i < |services| ::
                Candidate(services[i]) && services[i].productId.None? && Passed(services, nv, from, i)
    ensures Scan(services, nv, from).NotFound? ==> Passed(services, nv, from, |services|)
    decreases |services| - from
  {
    if from < |services| {
      var e := services[from];
      if !Candidate(e) || (e.productId.Some? && e.productId.value != nv) {
        ScanCases(services, nv, from + 1);
        var r := Scan(services, nv, from);
        if r.Raised? {
          var i :| from + 1 <= i < |services| &&
            Candidate(services[i]) && services[i].productId.None? && Passed(services, nv, from + 1, i);
          assert Passed(services, nv, from, i);
        }
      } else if e.productId.None? {
        assert Passed(services, nv, from, from);
      }
    }
  }

  /**
   * The scan picks service `i` exactly when `i` is a candidate with the wanted product id
   * and every candidate before it answered with another one.
   */
  lemma ScanFindsFirstMatch(services: seq<ServiceEntry>, nv: int, i: nat)
    requires i < |services|
    ensures Scan(services, nv, 0) == Found(i) <==>
              Candidate(services[i]) && services[i].productId == Some(nv) && Passed(services, nv, 0, i)
  {
    ScanCases(services, nv, 0);
  }

  /** The repeaters' own services, "com.victronenergy.tank.repeater_<n>", are never compared. */
  lemma RepeaterServicesSkipped(suffix: string, productId: Option<int>, owner: string)
    ensures !Candidate(ServiceEntry(TankRepeater.RepeaterServiceName + suffix, productId, owner))
  {
    assert (TankRepeater.RepeaterServiceName + suffix)[..|TankRepeater.RepeaterServiceName|] == TankRepeater.RepeaterServiceName;
  }

  // The poll.

  function NextDelay(d: int): int
  {
    if d + 1 > SearchDelayMax then 0 else d + 1
  }

  /** A poll rescans when the service is lost and the rescan counter came round to 0, or on request. */
  predicate Rescans(s: CorrelatorState)
  {
    (!s.DbusOK && NextDelay(s.SearchDelay) == 0) || s.NewProdId
  }

  /** The service found: its name and owner recorded, the buffer and fallback counters reset. */
  function Connected(s: CorrelatorState, e: ServiceEntry): CorrelatorState
  {
    CorrelatorState(true, e.owner, e.name, NoTank, TankRepeater.NoData, TankRepeater.NoData,
                    0, 0, false, s.NewProdId, s.SearchDelay, e.name)
  }

  /** A bus exception: the service counts as lost; the warning is logged once. */
  function Failed(s: CorrelatorState): CorrelatorState
  {
    s.(DbusOK := false, AlreadyLogged := true)
  }

  /**
   * The fallback for missed signals: while a tank is selected but no level has been buffered
   * since, each poll with a level counts; past FallbackPolls polls the polled level is
   * adopted. Capacity alike.
   */
  function Fallback(s: CorrelatorState, level: real, capacity: real): (r: CorrelatorState)
    ensures r == s.(NoLevelCount := r.NoLevelCount, LastLevel := r.LastLevel,
                    NoCapacityCount := r.NoCapacityCount, LastCapacity := r.LastCapacity)
    ensures var waiting := s.LastLevel == TankRepeater.NoData && s.LastTank != NoTank && level != TankRepeater.NoData;
            r.NoLevelCount == (if waiting then s.NoLevelCount + 1 else 0) &&
            r.LastLevel == (if waiting && r.NoLevelCount > FallbackPolls then level else s.LastLevel)
    ensures var waiting := s.LastCapacity == TankRepeater.NoData && s.LastTank != NoTank && capacity != TankRepeater.NoData;
            r.NoCapacityCount == (if waiting then s.NoCapacityCount + 1 else 0) &&
            r.LastCapacity == (if waiting && r.NoCapacityCount > FallbackPolls then capacity else s.LastCapacity)
  {
    var s1 :=
      if s.LastLevel == TankRepeater.NoData && s.LastTank != NoTank && level != TankRepeater.NoData then
        var count := s.NoLevelCount + 1;
        s.(NoLevelCount := count, LastLevel := if count > FallbackPolls then level else s.LastLevel)
      else s.(NoLevelCount := 0);
    if s1.LastCapacity == TankRepeater.NoData && s1.LastTank != NoTank && capacity != TankRepeater.NoData then
      var count := s1.NoCapacityCount + 1;
      s1.(NoCapacityCount := count, LastCapacity := if count > FallbackPolls then capacity else s1.LastCapacity)
    else s1.(NoCapacityCount := 0)
  }

  /** The sample: forwarded only for a repeater's index read twice alike; the fallback runs regardless. */
  function Sampled(s: CorrelatorState, poll: PollReply): (CorrelatorState, Option<Dispatch>)
  {
    match poll
    case PollFailed => (Failed(s), None)
    case PollSample(tank, level, capacity, tank2) =>
      var d := if tank >= 0 && tank < RepeaterCount && tank == tank2
               then Some(Dispatch(tank, level, capacity)) else None;
      (Fallback(s, level, capacity), d)
  }

  /**
   * The part of a poll before the sample: the rescan counter steps and, when due, the scan
   * runs. The flag says the scan ended in a bus exception.
   */
  function Rescanned(s: CorrelatorState, nv: int, services: seq<ServiceEntry>): (CorrelatorState, bool)
  {
    var s1 := s.(SearchDelay := NextDelay(s.SearchDelay));
    if (!s1.DbusOK && s1.SearchDelay == 0) || s1.NewProdId then
      var s2 := s1.(NameNv := if nv == -1 && s1.NewProdId then "" else s1.NameNv,
                    NewProdId := false, DbusOK := false, SearchDelay := 0);
      match Scan(services, nv, 0)
      case Raised => (s2, true)
      case NotFound => (s2, false)
      case Found(i) => (Connected(s2, services[i]), false)
    else (s1, false)
  }

  /** `CheckIncomingTank`, one poll, with the product id setting `nv`. */
  function Check(s: CorrelatorState, nv: int, services: seq<ServiceEntry>, poll: PollReply): (r: (CorrelatorState, Option<Dispatch>))
    ensures Inv(s) ==> Inv(r.0)
    ensures !r.0.NewProdId
    ensures r.1.Some? ==> poll.PollSample? && 0 <= poll.tank < RepeaterCount && poll.tank == poll.tank2 &&
                          r.1.value == Dispatch(poll.tank, poll.level, poll.capacity)
    ensures r.0.SearchDelay == if Rescans(s) then 0 else NextDelay(s.SearchDelay)
    ensures s.AlreadyLogged && !r.0.AlreadyLogged ==> Rescans(s) && Scan(services, nv, 0).Found?
    ensures r.0.NameNv != s.NameNv ==>
              Rescans(s) && ((nv == -1 && s.NewProdId && r.0.NameNv == "") ||
                             (Scan(services, nv, 0).Found? && r.0.NameNv == services[Scan(services, nv, 0).index].name))
    ensures r.0.DbusOK ==> (s.DbusOK || Rescans(s)) && poll.PollSample?
    ensures var (s2, raised) := Rescanned(s, nv, services);
            (raised ==> r == (Failed(s2), None)) &&
            (!raised && s2.DbusOK && poll.PollSample? ==>
               r.0 == Fallback(s2, poll.level, poll.capacity) &&
               (r.1.Some? <==> 0 <= poll.tank < RepeaterCount && poll.tank == poll.tank2)) &&
            (!raised && !s2.DbusOK ==> r == (s2, None)) &&
            (!raised && s2.DbusOK && poll.PollFailed? ==> !r.0.DbusOK && r.0.AlreadyLogged)
  {
    var (s2, raised) := Rescanned(s, nv, services);
    if raised then (Failed(s2), None)
    else if !s2.DbusOK then (s2, None)
    else Sampled(s2, poll)
  }

  /**
   * Without a pending product id change, a poll rescans exactly when the service is lost and
   * the counter stands at SearchDelayMax: a lost service is looked for every
   * SearchDelayMax + 1 polls.
   */
  lemma RescanSchedule(s: CorrelatorState)
    requires Inv(s) && !s.NewProdId
    ensures Rescans(s) <==> !s.DbusOK && s.SearchDelay == SearchDelayMax
  {
  }

  /**
   * What a rescan leaves: with the service found, its names recorded and the buffer reset
   * (the poll's fallback cannot change a reset buffer); otherwise the service is lost, and
   * the name setting is cleared only for product id -1 set since the last poll.
   */
  lemma RescanOutcome(s: CorrelatorState, nv: int, services: seq<ServiceEntry>, poll: PollReply)
    requires Rescans(s)
    ensures var r := Check(s, nv, services, poll).0;
            match Scan(services, nv, 0)
            case Found(i) =>
              i < |services| && r.Source == services[i].name && r.NameNv == services[i].name &&
              r.UniqueName == services[i].owner && r.DbusOK == poll.PollSample? &&
              r.LastTank == NoTank && r.LastLevel == TankRepeater.NoData && r.LastCapacity == TankRepeater.NoData &&
              r.NoLevelCount == 0 && r.NoCapacityCount == 0
            case NotFound =>
              r == s.(NameNv := if nv == -1 && s.NewProdId then "" else s.NameNv,
                      NewProdId := false, DbusOK := false, SearchDelay := 0)
            case Raised =>
              !r.DbusOK && r.AlreadyLogged &&
              r.NameNv == (if nv == -1 && s.NewProdId then "" else s.NameNv)
  {
    ScanCases(services, nv, 0);
  }

  /** A lost service stays lost until a rescan finds it: polls in between change no buffer. */
  lemma LostServiceIdle(s: CorrelatorState, nv: int, services: seq<ServiceEntry>, poll: PollReply)
    requires !s.DbusOK && !Rescans(s)
    ensures Check(s, nv, services, poll) == (s.(SearchDelay := NextDelay(s.SearchDelay)), None)
  {
  }

  /** `n` consecutive fallback steps, one per sample (level, capacity), with no signal between. */
  function Fallbacks(s: CorrelatorState, samples: seq<(real, real)>): CorrelatorState
    decreases |samples|
  {
    if |samples| == 0 then s else Fallbacks(Fallback(s, samples[0].0, samples[0].1), samples[1..])
  }

  /**
   * With a tank selected and no level buffered, polls that all bring a level keep counting
   * up to FallbackPolls and the next one has its level adopted.
   */
  lemma {:induction false} LevelAdoptedAfterSilence(s: CorrelatorState, samples: seq<(real, real)>)
    requires s.LastLevel == TankRepeater.NoData && s.LastTank != NoTank && 0 <= s.NoLevelCount
    requires s.NoLevelCount + |samples| <= FallbackPolls + 1
    requires forall k | 0 <= k < |samples| :: samples[k].0 != TankRepeater.NoData
    ensures var r := Fallbacks(s, samples);
            r.LastTank == s.LastTank &&
            (s.NoLevelCount + |samples| <= FallbackPolls ==>
               r.LastLevel == TankRepeater.NoData && r.NoLevelCount == s.NoLevelCount + |samples|) &&
            (s.NoLevelCount + |samples| == FallbackPolls + 1 && |samples| > 0 ==>
               r.LastLevel == samples[|samples| - 1].0)
    decreases |samples|
  {
    if |samples| > 0 {
      var s1 := Fallback(s, samples[0].0, samples[0].1);
      if |samples| == 1 {
        assert Fallbacks(s1, samples[1..]) == s1;
      } else {
        assert s1.NoLevelCount == s.NoLevelCount + 1 <= FallbackPolls;
        LevelAdoptedAfterSilence(s1, samples[1..]);
      }
    }
  }

  class Correlator {
    var DbusOK: bool
    var UniqueName: string
    var Source: string
    var LastTank: int
    var LastLevel: real
    var LastCapacity: real
    var NoLevelCount: int
    var NoCapacityCount: int
    var AlreadyLogged: bool
    var NewProdId: bool
    var SearchDelay: int
    var NameNv: string
    /** `RepeaterList`: the repeater of tank i at index i. */
    const Repeaters: array<TankRepeater.Repeater>

    function State(): CorrelatorState
      reads this
    {
      CorrelatorState(DbusOK, UniqueName, Source, LastTank, LastLevel, LastCapacity,
                      NoLevelCount, NoCapacityCount, AlreadyLogged, NewProdId, SearchDelay, NameNv)
    }

    ghost predicate Valid()
      reads this, Repeaters, Repeaters[..]
    {
      Inv(State()) && RepeatersValid()
    }

    /** Six distinct repeaters, the one of tank i at index i. */
    ghost predicate RepeatersValid()
      reads Repeaters, Repeaters[..]
    {
      Repeaters.Length == RepeaterCount &&
      (forall i, j | 0 <= i < j < Repeaters.Length :: Repeaters[i] != Repeaters[j]) &&
      (forall i | 0 <= i < Repeaters.Length :: Repeaters[i].Tank == i && Repeaters[i].Valid())
    }

    /** Each repeater is updated as `d` says and no other is touched. */
    twostate predicate Forwarded(d: Option<Dispatch>)
      reads this, Repeaters, Repeaters[..]
    {
      forall i | 0 <= i < Repeaters.Length ::
        Repeaters[i].State() ==
          if d.Some? && d.value.tank == i
          then TankRepeater.Updated(old(Repeaters[i].State()), d.value.level, d.value.capacity)
          else old(Repeaters[i].State())
    }

    /** The module's globals at start-up, with the six repeaters `main` creates. */
    constructor (nameNv: string)
      ensures Valid() && State() == Initial(nameNv)
      ensures forall i | 0 <= i < Repeaters.Length :: Repeaters[i].State() == TankRepeater.Initial(i)
    {
      DbusOK := false;
      UniqueName := "";
      Source := "";
      LastTank := NoTank;
      LastLevel := TankRepeater.NoData;
      LastCapacity := TankRepeater.NoData;
      NoLevelCount := 0;
      NoCapacityCount := 0;
      AlreadyLogged := false;
      NewProdId := true;
      SearchDelay := 0;
      NameNv := nameNv;
      var list := NewRepeaters();
      Repeaters := list;
    }

    /** The loop of `main` creating one repeater per tank. */
    static method NewRepeaters() returns (a: array<TankRepeater.Repeater>)
      ensures fresh(a) && a.Length == RepeaterCount
      ensures forall i, j | 0 <= i < j < a.Length :: a[i] != a[j]
      ensures forall i | 0 <= i < a.Length :: a[i].State() == TankRepeater.Initial(i)
    {
      var first := new TankRepeater.Repeater(0);
      a := new TankRepeater.Repeater[RepeaterCount](_ => first);
      for tank := 1 to RepeaterCount
        invariant forall i | 0 <= i < tank :: a[i].State() == TankRepeater.Initial(i)
        invariant forall i, j | 0 <= i < j < tank :: a[i] != a[j]
        invariant forall i | 0 <= i < tank :: fresh(a[i])
      {
        a[tank] := new TankRepeater.Repeater(tank);
      }
    }

    /** `RepeaterList[tank].UpdateRepeater(level, capacity)`. */
    method Forward(tank: int, level: real, capacity: real)
      requires Valid() && 0 <= tank < RepeaterCount
      modifies Repeaters[..]
      ensures Valid()
      ensures Forwarded(Some(Dispatch(tank, level, capacity)))
    {
      var _ := Repeaters[tank].UpdateRepeater(level, capacity);
    }

    method FluidTypeHandler(sender: string, change: Change)
      requires Valid()
      modifies this, Repeaters[..]
      ensures Valid()
      ensures State() == FluidType(old(State()), sender, change).0
      ensures Forwarded(FluidType(old(State()), sender, change).1)
    {
      if !DbusOK || sender != UniqueName {
        return;
      }
      if change.text == "" {
        return;
      }
      var tank := Trunc(change.value);
      if LastTank >= 0 && LastTank < Repeaters.Length {
        Forward(LastTank, LastLevel, LastCapacity);
      }
      LastTank := tank;
    }

    method FluidLevelHandler(sender: string, change: Change)
      requires Valid()
      modifies this
      ensures Valid()
      ensures State() == FluidLevel(old(State()), sender, change)
    {
      if !DbusOK || sender != UniqueName {
        return;
      }
      if change.text != "" {
        LastLevel := change.value;
      }
    }

    method FluidCapacityHandler(sender: string, change: Change)
      requires Valid()
      modifies this
      ensures Valid()
      ensures State() == FluidCapacity(old(State()), sender, change)
    {
      if !DbusOK || sender != UniqueName {
        return;
      }
      if change.text != "" {
        LastCapacity := change.value;
      }
    }

    method IncomingTankSettingChanged(name: string)
      requires Valid()
      modifies this
      ensures Valid()
      ensures State() == SettingChanged(old(State()), name)
    {
      if name == ProductIdSetting {
        NewProdId := true;
      }
    }

    /** The `except dbus.DBusException` branch. */
    method Fail()
      requires Valid()
      modifies this
      ensures Valid()
      ensures State() == Failed(old(State()))
    {
      DbusOK := false;
      if !AlreadyLogged {
        AlreadyLogged := true;
      }
    }

    /** The scan loop: the index of the service whose /ProductId equals `nv`, or how it ended. */
    method ScanServices(services: seq<ServiceEntry>, nv: int) returns (result: ScanResult)
      ensures result == Scan(services, nv, 0)
    {
      var i := 0;
      while i < |services|
        invariant 0 <= i <= |services|
        invariant Scan(services, nv, i) == Scan(services, nv, 0)
      {
        var service := services[i];
        if TankRepeater.RepeaterServiceName <= service.name {
          i := i + 1;
          continue;
        }
        if TankServicePrefix <= service.name {
          if service.productId == None {
            return Raised;
          }
          if service.productId.value == nv {
            return Found(i);
          }
        }
        i := i + 1;
      }
      return NotFound;
    }

    /** The rescan part of `CheckIncomingTank`; true when the scan raised. */
    method Rescan(nv: int, services: seq<ServiceEntry>) returns (raised: bool)
      requires Inv(State())
      modifies this
      ensures Inv(State())
      ensures (State(), raised) == Rescanned(old(State()), nv, services)
    {
      raised := false;
      SearchDelay := SearchDelay + 1;
      if SearchDelay > SearchDelayMax {
        SearchDelay := 0;
      }
      if (!DbusOK && SearchDelay == 0) || NewProdId {
        if nv == -1 && NewProdId {
          NameNv := "";
        }
        NewProdId := false;
        DbusOK := false;
        SearchDelay := 0;
        var found := ScanServices(services, nv);
        match found
        case Raised =>
          raised := true;
        case NotFound =>
        case Found(i) =>
          Connect(services[i]);
      }
    }

    /** The service found by the scan becomes the upstream service. */
    method Connect(service: ServiceEntry)
      requires Inv(State())
      modifies this
      ensures Inv(State())
      ensures State() == Connected(old(State()), service)
    {
      DbusOK := true;
      Source := service.name;
      UniqueName := service.owner;
      LastTank := NoTank;
      LastLevel := TankRepeater.NoData;
      LastCapacity := TankRepeater.NoData;
      NoLevelCount := 0;
      NoCapacityCount := 0;
      AlreadyLogged := false;
      NameNv := service.name;
    }

    /** The fallback counters of `CheckIncomingTank`. */
    method CountSilence(level: real, capacity: real)
      requires Inv(State())
      modifies this
      ensures Inv(State())
      ensures State() == Fallback(old(State()), level, capacity)
    {
      if LastLevel == TankRepeater.NoData && LastTank != NoTank && level != TankRepeater.NoData {
        NoLevelCount := NoLevelCount + 1;
        if NoLevelCount > FallbackPolls {
          LastLevel := level;
        }
      } else {
        NoLevelCount := 0;
      }
      if LastCapacity == TankRepeater.NoData && LastTank != NoTank && capacity != TankRepeater.NoData {
        NoCapacityCount := NoCapacityCount + 1;
        if NoCapacityCount > FallbackPolls {
          LastCapacity := capacity;
        }
      } else {
        NoCapacityCount := 0;
      }
    }

    /** The sample part of `CheckIncomingTank`, once the upstream service is known. */
    method Sample(poll: PollReply)
      requires Valid()
      modifies this, Repeaters[..]
      ensures Valid()
      ensures State() == Sampled(old(State()), poll).0
      ensures Forwarded(Sampled(old(State()), poll).1)
    {
      match poll
      case PollFailed =>
        Fail();
      case PollSample(tank, level, capacity, tank2) =>
        if tank >= 0 && tank < Repeaters.Length && tank == tank2 {
          Forward(tank, level, capacity);
        }
        CountSilence(level, capacity);
    }

    method CheckIncomingTank(nv: int, services: seq<ServiceEntry>, poll: PollReply) returns (again: bool)
      requires Valid()
      modifies this, Repeaters[..]
      ensures Valid()
      ensures State() == Check(old(State()), nv, services, poll).0
      ensures Forwarded(Check(old(State()), nv, services, poll).1)
      ensures again
    {
      again := true;
      var raised := Rescan(nv, services);
      if raised {
        Fail();
        return;
      }
      if !DbusOK {
        return;
      }
      Sample(poll);
    }
  }
}
