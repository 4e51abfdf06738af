# TankRepeater in Dafny

TankRepeater sits on a Victron Venus bus between one upstream tank service and the GUI. The
upstream service (an NMEA2000 SeeLevel tank system) reports several tanks in rotation through a
single service. Its `/FluidType` path says which tank the current `/Level` and `/Capacity`
belong to. TankRepeater correlates those three paths and forwards each tank's level and capacity
to a repeater of its own. Each repeater republishes its tank on a separate bus service and runs a
watchdog that drives that service's `/Connected` flag.

This project models:

- `repeater.dfy`, module `TankRepeater`: the `Repeater` class of `TankRepeater.py`.
  - `RepeaterState` and its step functions (`Updated`, `ChangeFlagged`, `Ticked`) say what each
    operation does to the whole state.
  - The class `Repeater` performs the same operations on mutable fields. Each method is proved
    to agree with its step function.
  - Lemmas cover the watchdog: its invariant, its transitions, the disconnect after silence,
    the lazy service creation, and external writes being overwritten.
- `correlator.dfy`, module `IncomingTank`: the correlator of `TankRepeater.py`.
  - The module globals become `CorrelatorState`, with a class `Correlator` over them that also
    holds the array of six repeaters.
  - Also modelled: the three signal handlers, the setting-change handler, and the poll
    `CheckIncomingTank`, which covers the rescan counter, the scan for the upstream service by
    product id, the twice-read tank selector and the fallback counters.
  - The bus is turned into inputs: the list of service names with their `/ProductId`, or the
    exception reading it raised; the poll's four reads, or their exception; and each signal's
    sender and text/value pair.
- `simulator.dfy`, module `SeeLevelSimulator`: `_update` of `SimulateSeeLevel.py`. It publishes
  the current tank, bounces its level between 0 and 100 in auto mode, and steps a cursor to the
  next enabled tank. The level and increment tables are arrays, as in the source.
- `version.dfy`, module `VregVersion`: `convert_vreg_version_to_readable` of velib_python's
  `ve_utils.py`, with its `str_to_arr` helper and its joining loop as methods. Both are proved
  against specification functions. The lemmas say what the resulting string means.
- `dbus_codec.dfy`, module `DbusCodec`: `wrap_dbus_value` and `unwrap_dbus_value` of
  `ve_utils.py`, over a `Value` type holding Python 2's native types and dbus-python's wrapper
  types. The `isinstance` tests follow dbus-python's class hierarchy. The lemmas cover what
  survives a round trip over the bus and what changes.
- `wrappers.dfy`: the `Option` type.

The repeater's and the correlator's levels and capacities, and the codec's floats, are `real`.
The simulator's level and increment tables stay `int`, as in the source. The source's -99 "no
data" marker is kept as a constant. The source's `RepeaterTimeout` is computed from `RepeaterTimeoutInSeconds = 6.0` and
a 1-second tick, so it is 6 ticks. The comment above it speaks of 8 seconds; the model follows
the code.

## Model

| member | source | states |
|---|---|---|
| `TankRepeater.InitialValid` | TankRepeater.py:150-162 | A new repeater satisfies the watchdog invariant, has no service yet and has no pending update. |
| `TankRepeater.Updated` | TankRepeater.py:290-297 | A level or capacity of -99 leaves its field unchanged; any other value replaces it. The update is marked pending, nothing else changes, and the watchdog invariant is kept. |
| `TankRepeater.ChangeFlagged` | TankRepeater.py:176-179 | A write to a service path only marks an update as pending, and keeps the invariant. |
| `TankRepeater.Ticked` | TankRepeater.py:250-285 | One tick keeps the invariant and never changes the stored level or capacity. Without a service, nothing pending means no change, and a pending update creates the service with its initial paths and leaves the update pending. With a service, the pending flag is cleared. A pending update publishes level, capacity and remaining = capacity × level / 100, sets /Connected to 1 and restarts the count at 1. With nothing pending, only /Connected can change. |
| `TankRepeater.WatchdogTransitions` | TankRepeater.py:272-283 | A seen count of 0 sets /Connected to 1. A count above RepeaterTimeout sets it to 0 and stops the count. Otherwise /Connected stays and the count rises by one. A 0→1 switch happens only at count 0, and a 1→0 switch only past the timeout. |
| `TankRepeater.SilentTicks` | TankRepeater.py:278-283 | With no updates, n ticks raise the count by n, capped at RepeaterTimeout + 1, and keep the invariant. |
| `TankRepeater.SilenceDisconnects` | TankRepeater.py:268-283 | RepeaterTimeout + 2 ticks without an update always leave the service showing /Connected = 0. |
| `TankRepeater.TicksSplit` | TankRepeater.py:250-285 | m + n ticks are m ticks followed by n ticks. |
| `TankRepeater.FirstUpdatePublishedOnSecondTick` | TankRepeater.py:254-266 | After a tank's first update, the next tick only creates the service and keeps the update pending. The tick after that publishes the update with /Connected = 1. |
| `TankRepeater.ExternalWriteOverwritten` | TankRepeater.py:262-266 | A value another process writes to /Level, /Capacity or /Remaining is replaced by the repeater's own values on the next tick. A written /FluidType is kept. |
| `TankRepeater.UpdatedIdempotent` | TankRepeater.py:290-297 | Forwarding the same values twice equals forwarding them once. |
| `TankRepeater.Repeater.constructor` | TankRepeater.py:158-162 | A new repeater's state is the initial state for its tank, and it is valid. |
| `TankRepeater.Repeater.UpdateRepeater` | TankRepeater.py:290-297 | A valid repeater stays valid. The new state is `Updated` of the old one, and the method returns true. |
| `TankRepeater.Repeater.HandleChangedValue` | TankRepeater.py:176-179 | A valid repeater stays valid. The new state is `ChangeFlagged` of the old one, and the callback accepts the write. |
| `TankRepeater.Repeater.CreateService` | TankRepeater.py:184-224 | The service exists with /Connected 0, level, capacity and remaining 0, and /FluidType equal to the tank. The count is 0 and nothing else changes, which leaves the repeater valid. |
| `TankRepeater.Repeater.Tick` | TankRepeater.py:250-285 | A valid repeater stays valid. The new state is `Ticked` of the old one, and the method asks to be called again. |
| `IncomingTank.InitialValid` | TankRepeater.py:324-336 | The start-up globals satisfy the invariant, have a rescan pending and have no service found. |
| `IncomingTank.Trunc` | TankRepeater.py:493 | `int()` of a float truncates toward zero: the result lies within 1 of x, on the side toward 0. |
| `IncomingTank.FluidType` | TankRepeater.py:474-503 | A signal that is not from the found service, or that has an empty text, changes nothing. Otherwise the truncated selector becomes LastTank. The buffered level and capacity are forwarded exactly when the previous LastTank is a repeater index, and then to that tank. The invariant is kept. |
| `IncomingTank.FluidLevel` | TankRepeater.py:506-521 | An accepted signal buffers its value as LastLevel. Nothing else changes, and a rejected signal changes nothing. |
| `IncomingTank.FluidCapacity` | TankRepeater.py:524-539 | An accepted signal buffers its value as LastCapacity. Nothing else changes, and a rejected signal changes nothing. |
| `IncomingTank.SettingChanged` | TankRepeater.py:550-558 | A rescan is requested if and only if it was pending already or the product id setting changed. Nothing else changes. |
| `IncomingTank.SignalsCorrelate` | TankRepeater.py:474-539 | Signals selector t1, level, capacity, selector t2 from the upstream service forward exactly that level and capacity to tank t1, and leave t2 selected. |
| `IncomingTank.Scan` | TankRepeater.py:400-408 | A found index is in range and carries the wanted product id. |
| `IncomingTank.ScanCases` | TankRepeater.py:400-408 | Found: the service is a candidate with the wanted id, and every candidate before it had another id. Raised: some candidate's read raised, after only non-matching candidates. Not found: every candidate had another id. |
| `IncomingTank.ScanFindsFirstMatch` | TankRepeater.py:400-408 | The scan finds service i if and only if i is a candidate with the wanted id and all earlier candidates answered with other ids. |
| `IncomingTank.RepeaterServicesSkipped` | TankRepeater.py:401-403 | No repeater's own service name is ever compared. |
| `IncomingTank.Fallback` | TankRepeater.py:449-467 | While a tank is selected, no level is buffered and the poll brings a level, the level counter rises. Otherwise it resets to 0. Past 10 the polled level is adopted. Capacity behaves the same, and nothing else changes. |
| `IncomingTank.Check` | TankRepeater.py:358-469 | The invariant is kept and no rescan stays pending. After the rescan step (`Rescanned`): a scan that raised leaves the service lost and the warning logged, with no dispatch; a service still lost skips the poll; a failed poll read loses the service and sets the "already logged" flag. A sample read from a live service is dispatched if and only if its selector is a repeater index read twice alike, and then with its own level and capacity; the fallback counters (`Fallback`) run on it whether or not it is dispatched. The rescan counter steps or is reset by a rescan. The "already logged" flag is cleared only by a successful scan. The name setting changes only in a rescan: cleared for product id -1, or set to the found service. |
| `IncomingTank.RescanSchedule` | TankRepeater.py:380-390 | With no product id change pending, a poll rescans if and only if the service is lost and the counter stands at 10. |
| `IncomingTank.RescanOutcome` | TankRepeater.py:390-441 | A found service records its names and resets the buffer and counters. Not found leaves the service lost, and the name setting is cleared only for id -1. A raising scan leaves the service lost and the warning logged. |
| `IncomingTank.LostServiceIdle` | TankRepeater.py:426-428 | While the service is lost and no rescan is due, a poll only steps the counter and forwards nothing. |
| `IncomingTank.LevelAdoptedAfterSilence` | TankRepeater.py:449-458 | With a tank selected and no level signal, up to 10 polls with levels only count. The 11th has its level adopted. |
| `IncomingTank.Correlator.constructor` | TankRepeater.py:324-344 | The fields hold the start-up globals, and the object is valid. Repeater i is the one for tank i, in its initial state. |
| `IncomingTank.Correlator.NewRepeaters` | TankRepeater.py:579-580 | Six fresh, distinct repeaters, repeater i created for tank i. |
| `IncomingTank.Correlator.Forward` | TankRepeater.py:446-447 | Exactly the named tank's repeater is updated, as `Updated` says. The others are untouched. |
| `IncomingTank.Correlator.FluidTypeHandler` | TankRepeater.py:474-503 | The new state and the repeater updates are those of `FluidType`. |
| `IncomingTank.Correlator.FluidLevelHandler` | TankRepeater.py:506-521 | The new state is that of `FluidLevel`. |
| `IncomingTank.Correlator.FluidCapacityHandler` | TankRepeater.py:524-539 | The new state is that of `FluidCapacity`. |
| `IncomingTank.Correlator.IncomingTankSettingChanged` | TankRepeater.py:550-558 | The new state is that of `SettingChanged`. |
| `IncomingTank.Correlator.Fail` | TankRepeater.py:436-441 | A bus exception marks the service lost and the warning logged. |
| `IncomingTank.Correlator.ScanServices` | TankRepeater.py:400-408 | The loop's result equals `Scan` from the first service. |
| `IncomingTank.Correlator.Rescan` | TankRepeater.py:380-424 | The counter step and, when due, the scan and connection, as `Rescanned` says. |
| `IncomingTank.Correlator.Connect` | TankRepeater.py:412-424 | The found service's name and owner are recorded, and the buffer and counters are reset, as `Connected` says. |
| `IncomingTank.Correlator.CountSilence` | TankRepeater.py:449-467 | The counters and buffer change as `Fallback` says. |
| `IncomingTank.Correlator.Sample` | TankRepeater.py:430-467 | The poll's sample is handled as `Sampled` says, including the forwarding to a repeater. |
| `IncomingTank.Correlator.CheckIncomingTank` | TankRepeater.py:358-469 | The new state and the repeater updates are those of `Check`, and the method asks to be called again. |
| `SeeLevelSimulator.Bounce` | SimulateSeeLevel.py:121-130 | The new increment is ± the old one, and a level in 0..100 stays in 0..100. A step that stays in range is taken as is. A step that leaves the range is undone, and the direction reverses. |
| `SeeLevelSimulator.NextEnabledUnique` | SimulateSeeLevel.py:136-141 | At most one tank is the first enabled tank after the cursor. |
| `SeeLevelSimulator.NoNextWhenAllSkipped` | SimulateSeeLevel.py:136-141 | With every tank disabled, every position the cursor visits in a full turn is disabled, so the loop's `break` is never taken, and no tank is the next enabled one. |
| `SeeLevelSimulator.DbusTankService.constructor` | SimulateSeeLevel.py:64-108 | The tables are [-99, 70, 30, -99, -99, 60] and [0, -3, 2, 0, 0, 1], the cursor is on tank 0, and /FluidType 0 and /Level -99 are published. Auto mode is on only when both simulating and auto. |
| `SeeLevelSimulator.DbusTankService.Update` | SimulateSeeLevel.py:113-143 | A disabled tank publishes nothing. Otherwise the tank and its level, bounced in auto mode, are published and only that tank's entries change. The cursor moves to the next enabled tank in cyclic order. |
| `SeeLevelSimulator.DbusTankService.AdvanceCursor` | SimulateSeeLevel.py:136-141 | The cursor ends on the first enabled tank after its old position, going round. |
| `VregVersion.StrToArr` | ext/velib_python/ve_utils.py:56-60 | A negative length gives no pieces. A positive one gives the consecutive pieces of `length` characters, the last possibly shorter. |
| `VregVersion.ConcatChunks` | ext/velib_python/ve_utils.py:56-60 | The pieces put back together give the input. |
| `VregVersion.ChunkSizes` | ext/velib_python/ve_utils.py:56-60 | Every piece is non-empty and at most `length` long, and all but the last are exactly `length`. An input longer than `length` gives at least two pieces. |
| `VregVersion.ChunksOfEven` | ext/velib_python/ve_utils.py:65-68 | An even-length string splits into pieces of exactly two. |
| `VregVersion.ConvertVregVersionToReadable` | ext/velib_python/ve_utils.py:55-85 | The result is `Readable(version)`. |
| `VregVersion.JoinWithDots` | ext/velib_python/ve_utils.py:78-80 | The loop's result is `Joined(a)`. |
| `VregVersion.JoinedWithoutDots` | ext/velib_python/ve_utils.py:78-80 | Dropping the dots of the joined groups gives the groups run together. |
| `VregVersion.HexDigitsValue` | ext/velib_python/ve_utils.py:62 | The digits "%x" produces denote the number. |
| `VregVersion.HexDigitsShape` | ext/velib_python/ve_utils.py:62 | "%x" gives at least one lower-case hexadecimal digit, with no leading zero for a positive number. |
| `VregVersion.HexDigitsLength` | ext/velib_python/ve_utils.py:62 | A number has at most k hexadecimal digits if and only if it is below 16^k. |
| `VregVersion.HexValueUpper` | ext/velib_python/ve_utils.py:63 | Upper-casing keeps the value of a hexadecimal string. |
| `VregVersion.HexValueLeadingZero` | ext/velib_python/ve_utils.py:65-66 | A padding '0' in front keeps the value. |
| `VregVersion.FirstChunkNotDoubleZero` | ext/velib_python/ve_utils.py:70-72 | With two or more chunks the first is never "00", so the `a.remove(0)` branch is never reached. |
| `VregVersion.DigitsOfGroups` | ext/velib_python/ve_utils.py:62-76 | For a non-negative version, the groups run together are the upper-case digits, padded to two only below 0x100. |
| `VregVersion.ReadableForm` | ext/velib_python/ve_utils.py:62-83 | The result is 'v' followed by non-empty groups of upper-case hexadecimal digits or a minus sign. The groups are separated by single dots, with no dot at either end. |
| `VregVersion.ReadableDenotesVersion` | ext/velib_python/ve_utils.py:62-83 | For a non-negative version, dropping the 'v' and the dots leaves hexadecimal digits whose value is the version. |
| `VregVersion.GroupSizes` | ext/velib_python/ve_utils.py:65-76 | From 0x100 to below 0x1000000, the first group has one or two digits and every later group exactly two. |
| `VregVersion.ReadableZero` | ext/velib_python/ve_utils.py:65-66 | Version 0 reads "v00": a single group keeps its padding. |
| `VregVersion.ReadableTwoGroups` | ext/velib_python/ve_utils.py:74-76 | Version 0x101 reads "v1.01": the first of two groups loses its leading '0'. |
| `DbusCodec.WrapShape` | ext/velib_python/ve_utils.py:129-158 | `Wrap` produces the "invalid" marker (an empty array of signed 32-bit integers) exactly for None. Every other result is a D-Bus wrapper or the value itself. `Wrap` has no result, standing for the TypeError of the set of pairs, when a dictionary value wraps to something unhashable; `WrapSucceedsIff` says exactly when. |
| `DbusCodec.Unwrap` | ext/velib_python/ve_utils.py:164-188 | None comes out exactly for None or an empty D-Bus array. |
| `DbusCodec.UnwrapLeavesNoWrapper` | ext/velib_python/ve_utils.py:164-188 | No D-Bus wrapper remains anywhere in the result, dictionary keys aside. |
| `DbusCodec.UnwrapWrap` | ext/velib_python/ve_utils.py:129-188 | A native value whose dictionaries hold no None, list or dictionary can be wrapped, and unwrapping the result gives `Received(v)`. Longs come back as ints, byte strings as unicode and empty lists as None. Lists and dictionary values are converted element by element, and keys are kept. |
| `DbusCodec.UnwrapWrapList` | ext/velib_python/ve_utils.py:142-148 | If every element can be wrapped and round-trips, so does the non-empty list. |
| `DbusCodec.UnwrapWrapDict` | ext/velib_python/ve_utils.py:151-157 | If every value wraps to something hashable and round-trips, the dictionary can be wrapped and round-trips. |
| `DbusCodec.StableIsFixed` | ext/velib_python/ve_utils.py:129-188 | Values without longs, byte strings or empty lists, whose dictionaries hold only scalars, are native and unchanged by the trip. |
| `DbusCodec.RoundTrip` | ext/velib_python/ve_utils.py:129-188 | unwrap(wrap(v)) == v, with wrap succeeding, for bools, ints, floats, unicode strings, non-empty lists of them, and dictionaries whose values are scalars among them. |
| `DbusCodec.NoneAndEmptyListCollide` | ext/velib_python/ve_utils.py:130-173 | None and the empty list are sent as different arrays, yet both are received as None. |
| `DbusCodec.WrapKeepsKeys` | ext/velib_python/ve_utils.py:151-157 | When every value wraps to something hashable, wrapping a dictionary succeeds, keeps its keys as they are and wraps each value. |
| `DbusCodec.UnwrapKeepsKeys` | ext/velib_python/ve_utils.py:183-185 | Unwrapping a D-Bus dictionary keeps its keys as they are and unwraps each value. |
| `DbusCodec.WrappedHashable` | ext/velib_python/ve_utils.py:129-158 | A value's wrapper is hashable exactly when the value is hashable and not None, and such a value always wraps. |
| `DbusCodec.WrapSucceedsIff` | ext/velib_python/ve_utils.py:129-158 | `wrap_dbus_value` returns a result if and only if every dictionary reached through lists holds no None and no unhashable value (`Wrappable`). |
| `DbusCodec.DictRaisesOnValue` | ext/velib_python/ve_utils.py:151-157 | A dictionary with a None or unhashable value cannot be wrapped. |
| `DbusCodec.ListRaisesOnElement` | ext/velib_python/ve_utils.py:142-148 | A list with an element that cannot be wrapped cannot be wrapped either. |
| `DbusCodec.DictOfListOrNoneRaises` | ext/velib_python/ve_utils.py:151-157 | `{u"a": [1]}`, `{u"a": None}` and a list holding the latter cannot be wrapped. |
| `DbusCodec.DbusIntegersUnwrapToInt` | ext/velib_python/ve_utils.py:161-178 | Every D-Bus integer type, Byte included, is received as a plain int. The separate Byte test is never reached. |

## Left out

- Bus plumbing is not modelled: creating services and their management paths, product names, device instances, and the per-process bus connections (`SystemBus`, `SessionBus`, `dbusconnection`). The model keeps only the paths the repeater and the simulator update.
- A repeater's custom name and its settings callbacks (`get_customname`, `set_customname`, `setting_changed`, `customname_changed`) touch only the settings store, so they are not modelled.
- `main` of both programs, the gobject timers and main loop, and signal registration are not modelled. Each timer callback is a method the environment calls.
- Logging is left out. Only the `AlreadyLogged` flag that gates a warning is kept.
- The settings store is not modelled. The product id setting is a parameter of each poll. The service-name setting is a field (`NameNv`) the model writes.
- Bus reads become inputs: the `/ProductId` of each listed name, or the exception its read raised, and the poll's four reads, or their exception. `get_object` and `get_name_owner` after a successful scan are taken to succeed. The owner is part of each listed entry.
- Signals whose change dictionary lacks "Text" or "Value", or whose value is not a number, are not modelled. A signal is its text and numeric value.
- `IncomingTank.Check`: the poll's reads (`PollReply`) are numbers. An invalid path reads back as the invalid marker, an empty array. The source does not filter it: it passes `level != -99`, so it is forwarded to `UpdateRepeater` and can become `LastLevel`. The model does not capture that case.
- The signal handlers run on another thread than the timers in the source. The model runs each handler and each timer callback as one atomic step, interleaved in some order. Interleavings inside a handler or a poll are not modelled.
- Python floats are unbounded `real`s, with no rounding. `Remaining` is capacity × level / 100 in real arithmetic. Python 2 would divide as integers if both values were ints.
- Python 2 `int()` of a float is truncation toward zero (`Trunc`). Infinities and NaN are not modelled.
- `SeeLevelSimulator.DbusTankService.Update`: requires at least one enabled tank. With every tank disabled the source's `while True` loop never ends, as `NoNextWhenAllSkipped` states.
- The simulator's `Levels` and `Increment` are class attributes shared by all instances in the source. The model gives each instance its own arrays. Its fixed capacity and its `/Connected` and `/CustomName` paths are not modelled.
- `VregVersion.StrToArr`: requires a non-zero length. Python's `range` raises ValueError for a step of 0, and the only caller passes 2.
- `VregVersion.ConvertVregVersionToReadable`: `a.remove(0)` would raise ValueError, because it looks for the value 0 rather than the index. `FirstChunkNotDoubleZero` proves that branch is never reached, so the model holds no behaviour for it.
- A version that is not an integer ("%x" raising TypeError) is not modelled.
- `DbusCodec.Wrap`: does not model the OverflowError dbus-python raises when an int does not fit `Int32` or a long does not fit `Int64`. `variant_level` is not modelled either. Any other object (`PyObject`) is taken to be hashable, and dictionary keys are not checked for hashability.
- `DbusCodec.Unwrap`: `ObjectPath`, `UTF8String`, `Struct` and the other dbus-python types are outside `Value`. A byte array's `"".join(str(x) …)` is modelled as its own string.
- The history example under `history-info-examples/` is not part of this model.
