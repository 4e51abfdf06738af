/**
 * The value codec of velib_python's ve_utils: `wrap_dbus_value` turns a native Python value
 * into the dbus-python wrapper type that is sent on the bus, and `unwrap_dbus_value` turns a
 * received value back into a native one.
 *
 * Python is dynamically typed, so both functions accept any value. `Value` is the universe
 * of the values they dispatch on: Python's native types and the dbus-python wrapper types.
 * Floats are carried as an opaque `real`; no arithmetic is done on them.
 */
module DbusCodec {

  import opened Wrappers

  datatype Value =
    // Python's native types
    | PyNone
    | PyBool(b: bool)
    | PyInt(n: int)
    | PyLong(n: int)
    | PyFloat(x: real)
    | PyStr(s: string)
    | PyUnicode(s: string)
    | PyList(items: seq<Value>)
    | PyTuple(items: seq<Value>)
    | PyDict(entries: map<Value, Value>)
    | PyObject(kind: string)  // any other object; both functions return it unchanged
    // the dbus-python wrapper types
    | DbusInt16(n: int)
    | DbusUInt16(n: int)
    | DbusInt32(n: int)
    | DbusUInt32(n: int)
    | DbusInt64(n: int)
    | DbusUInt64(n: int)
    | DbusByte(n: int)
    | DbusDouble(x: real)
    | DbusBoolean(b: bool)
    | DbusString(s: string)
    | DbusSignature(s: string)
    | DbusByteArray(s: string)
    | DbusArray(signature: string, items: seq<Value>)  // signature "" = inferred from the items
    | DbusDictionary(entries: map<Value, Value>)

  /** The marker for "no value": an empty array of signed 32-bit integers (ve_utils.py:10). */
  const Invalid: Value := DbusArray("i", [])

  predicate IsDbus(v: Value)
  {
    v.DbusInt16? || v.DbusUInt16? || v.DbusInt32? || v.DbusUInt32? || v.DbusInt64? ||
    v.DbusUInt64? || v.DbusByte? || v.DbusDouble? || v.DbusBoolean? || v.DbusString? ||
    v.DbusSignature? || v.DbusByteArray? || v.DbusArray? || v.DbusDictionary?
  }

  // `isinstance` against Python 2's native classes. dbus-python derives each wrapper type
  // from a native class: Int16, UInt16, Int32, Byte and Boolean from int; UInt32, Int64
  // and UInt64 from long; Double from float; String from unicode; Signature and ByteArray
  // from str; Array from list; Dictionary from dict. Python's bool is itself an int.

  predicate IsFloat(v: Value) { v.PyFloat? || v.DbusDouble? }

  predicate IsBool(v: Value) { v.PyBool? }

  predicate IsInt(v: Value)
  {
    v.PyBool? || v.PyInt? || v.DbusInt16? || v.DbusUInt16? || v.DbusInt32? || v.DbusByte? ||
    v.DbusBoolean?
  }

  predicate IsLong(v: Value) { v.PyLong? || v.DbusUInt32? || v.DbusInt64? || v.DbusUInt64? }

  predicate IsStr(v: Value) { v.PyStr? || v.DbusSignature? || v.DbusByteArray? }

  predicate IsUnicode(v: Value) { v.PyUnicode? || v.DbusString? }

  predicate IsList(v: Value) { v.PyList? || v.DbusArray? }

  predicate IsDict(v: Value) { v.PyDict? || v.DbusDictionary? }

  /** Membership in `dbus_int_types` (ve_utils.py:161). */
  predicate IsDbusInt(v: Value)
  {
    v.DbusInt32? || v.DbusUInt32? || v.DbusByte? || v.DbusInt16? || v.DbusUInt16? ||
    v.DbusInt64? || v.DbusUInt64?
  }

  /** The number an int-like value stands for (`int(value)`); a bool is 0 or 1. */
  function IntegerOf(v: Value): int
    requires IsInt(v) || IsLong(v)
  {
    if v.PyBool? || v.DbusBoolean? then (if v.b then 1 else 0) else v.n
  }

  /**
   * Whether Python's `hash()` accepts a value: lists and dictionaries, the D-Bus ones
   * included, are refused; a tuple is accepted when its elements are; any other object is.
   */
  predicate Hashable(v: Value)
    decreases v
  {
    match v
    case PyList(_) => false
    case PyDict(_) => false
    case DbusArray(_, _) => false
    case DbusDictionary(_) => false
    case PyTuple(items) => forall i | 0 <= i < |items| :: Hashable(items[i])
    case _ => true
  }

  /**
   * `wrap_dbus_value`: the first `isinstance` test that holds decides the wrapper type. A
   * dictionary is rebuilt from a *set* of (key, wrapped value) pairs, so a value whose
   * wrapper cannot be hashed makes the call raise TypeError. `None` stands for that
   * exception, which also escapes from every list and dictionary around it.
   */
  function Wrap(v: Value): Option<Value>
    decreases v
  {
    if v.PyNone? then Some(Invalid)
    else if IsFloat(v) then Some(DbusDouble(v.x))
    else if IsBool(v) then Some(DbusBoolean(v.b))
    else if IsInt(v) then Some(DbusInt32(IntegerOf(v)))
    else if IsStr(v) then Some(DbusString(v.s))
    else if IsUnicode(v) then Some(DbusString(v.s))
    else if IsList(v) then
      if |v.items| == 0 then Some(DbusArray("u", []))
      else if forall i | 0 <= i < |v.items| :: Wrap(v.items[i]).Some? then
        Some(DbusArray("", seq(|v.items|, i requires 0 <= i < |v.items| && Wrap(v.items[i]).Some? =>
          Wrap(v.items[i]).value)))
      else None
    else if IsLong(v) then Some(DbusInt64(IntegerOf(v)))
    else if IsDict(v) then
      if forall k | k in v.entries :: Wrap(v.entries[k]).Some? && Hashable(Wrap(v.entries[k]).value) then
        Some(DbusDictionary(map k | k in v.entries :: Wrap(v.entries[k]).value))
      else None
    else Some(v)
  }

  /**
   * `wrap_dbus_value` returns the invalid marker exactly for None; any other result is a
   * D-Bus wrapper or the value itself.
   */
  lemma WrapShape(v: Value)
    ensures Wrap(v) == Some(Invalid) <==> v.PyNone?
    ensures Wrap(v).Some? ==> IsDbus(Wrap(v).value) || Wrap(v).value == v
  {
  }

  /**
   * The values `wrap_dbus_value` returns for, stated without wrapping: every dictionary
   * reached through lists holds no None and no unhashable value.
   */
  predicate Wrappable(v: Value)
    decreases v
  {
    match v
    case PyList(items) => forall i | 0 <= i < |items| :: Wrappable(items[i])
    case DbusArray(_, items) => forall i | 0 <= i < |items| :: Wrappable(items[i])
    case PyDict(entries) => forall k | k in entries :: !entries[k].PyNone? && Hashable(entries[k])
    case DbusDictionary(entries) => forall k | k in entries :: !entries[k].PyNone? && Hashable(entries[k])
    case _ => true
  }

  /** A dictionary value's wrapper can be hashed exactly when the value is hashable and not None. */
  lemma WrappedHashable(v: Value)
    ensures Wrap(v).Some? ==> (Hashable(Wrap(v).value) <==> !v.PyNone? && Hashable(v))
    ensures !v.PyNone? && Hashable(v) ==> Wrap(v).Some?
  {
  }

  /** `wrap_dbus_value` raises exactly for the values that are not `Wrappable`. */
  lemma {:induction false} WrapSucceedsIff(v: Value)
    ensures Wrap(v).Some? <==> Wrappable(v)
    decreases v
  {
    if v.PyList? || v.DbusArray? {
      forall i | 0 <= i < |v.items|
        ensures Wrap(v.items[i]).Some? <==> Wrappable(v.items[i])
      {
        WrapSucceedsIff(v.items[i]);
      }
    } else if IsDict(v) {
      forall k | k in v.entries
        ensures Wrap(v.entries[k]).Some? && Hashable(Wrap(v.entries[k]).value)
            <==> !v.entries[k].PyNone? && Hashable(v.entries[k])
      {
        WrappedHashable(v.entries[k]);
      }
    }
  }

  /** A dictionary with one value that is None or unhashable cannot be wrapped. */
  lemma DictRaisesOnValue(entries: map<Value, Value>, k: Value)
    requires k in entries && (entries[k].PyNone? || !Hashable(entries[k]))
    ensures Wrap(PyDict(entries)).None?
  {
    WrappedHashable(entries[k]);
  }

  /** A list with one element that cannot be wrapped cannot be wrapped either. */
  lemma ListRaisesOnElement(items: seq<Value>, i: int)
    requires 0 <= i < |items| && Wrap(items[i]).None?
    ensures Wrap(PyList(items)).None?
  {
  }

  /** `{u"a": [1]}`, `{u"a": None}` and a list holding the latter cannot be wrapped. */
  lemma DictOfListOrNoneRaises()
    ensures Wrap(PyDict(map[PyUnicode("a") := PyList([PyInt(1)])])).None?
    ensures Wrap(PyDict(map[PyUnicode("a") := PyNone])).None?
    ensures Wrap(PyList([PyDict(map[PyUnicode("a") := PyNone])])).None?
  {
    var key := PyUnicode("a");
    var inner := PyDict(map[key := PyNone]);
    DictRaisesOnValue(map[key := PyList([PyInt(1)])], key);
    DictRaisesOnValue(inner.entries, key);
    ListRaisesOnElement([inner], 0);
  }

  /** No D-Bus wrapper anywhere in `v`, except possibly inside dictionary keys. */
  predicate Unwrapped(v: Value)
    decreases v
  {
    !IsDbus(v) &&
    match v
    case PyList(items) => forall i | 0 <= i < |items| :: Unwrapped(items[i])
    case PyTuple(items) => forall i | 0 <= i < |items| :: Unwrapped(items[i])
    case PyDict(entries) => forall k | k in entries :: Unwrapped(entries[k])
    case _ => true
  }

  /**
   * `unwrap_dbus_value`. The `dbus.Byte` test of the source comes after the test against
   * `dbus_int_types`, which already contains Byte, so that branch is never taken.
   */
  function Unwrap(v: Value): (r: Value)
    ensures r.PyNone? <==> v.PyNone? || (v.DbusArray? && v.items == [])
    decreases v
  {
    if IsDbusInt(v) then PyInt(v.n)
    else if v.DbusDouble? then PyFloat(v.x)
    else if v.DbusArray? then
      if |v.items| == 0 then PyNone
      else PyList(seq(|v.items|, i requires 0 <= i < |v.items| => Unwrap(v.items[i])))
    else if v.DbusSignature? || v.DbusString? then PyUnicode(v.s)
    else if v.DbusByteArray? then PyStr(v.s)
    else if v.PyList? || v.PyTuple? then
      PyList(seq(|v.items|, i requires 0 <= i < |v.items| => Unwrap(v.items[i])))
    else if IsDict(v) then PyDict(map k | k in v.entries :: Unwrap(v.entries[k]))
    else if v.DbusBoolean? then PyBool(v.b)
    else v
  }

  /** Whatever it is given, `Unwrap` leaves no D-Bus wrapper behind (dictionary keys aside). */
  lemma {:induction false} UnwrapLeavesNoWrapper(v: Value)
    ensures Unwrapped(Unwrap(v))
    decreases v
  {
    var r := Unwrap(v);
    if (v.DbusArray? && |v.items| > 0) || v.PyList? || v.PyTuple? {
      forall i | 0 <= i < |v.items|
        ensures Unwrapped(r.items[i])
      {
        UnwrapLeavesNoWrapper(v.items[i]);
      }
    } else if IsDict(v) {
      forall k | k in v.entries
        ensures Unwrapped(r.entries[k])
      {
        UnwrapLeavesNoWrapper(v.entries[k]);
      }
    }
  }

  /**
   * A native value that can be sent: no D-Bus wrapper and no tuple anywhere in it (dictionary
   * keys aside), and no None, list or dictionary as a dictionary value.
   */
  predicate Native(v: Value)
    decreases v
  {
    !IsDbus(v) && !v.PyTuple? &&
    match v
    case PyList(items) => forall i | 0 <= i < |items| :: Native(items[i])
    case PyDict(entries) =>
      forall k | k in entries :: Native(entries[k]) && !entries[k].PyNone? && Hashable(entries[k])
    case _ => true
  }

  /**
   * What a native value comes back as after a trip over the bus: a long becomes an int, a
   * byte string becomes a unicode string and an empty list becomes None; lists and
   * dictionary values are mapped element by element, dictionary keys are kept.
   */
  function Received(v: Value): Value
    decreases v
  {
    match v
    case PyLong(n) => PyInt(n)
    case PyStr(s) => PyUnicode(s)
    case PyList(items) =>
      if |items| == 0 then PyNone
      else PyList(seq(|items|, i requires 0 <= i < |items| => Received(items[i])))
    case PyDict(entries) => PyDict(map k | k in entries :: Received(entries[k]))
    case _ => v
  }

  /** A native value can be sent, and receiving it again yields `Received(v)`. */
  lemma {:induction false} UnwrapWrap(v: Value)
    requires Native(v)
    ensures Wrap(v).Some? && Unwrap(Wrap(v).value) == Received(v)
    decreases v
  {
    match v
    case PyList(items) =>
      if |items| > 0 {
        forall i | 0 <= i < |items|
          ensures Wrap(items[i]).Some? && Unwrap(Wrap(items[i]).value) == Received(items[i])
        {
          UnwrapWrap(items[i]);
        }
        UnwrapWrapList(items);
      }
    case PyDict(entries) =>
      forall k | k in entries
        ensures Wrap(entries[k]).Some? && Hashable(Wrap(entries[k]).value)
        ensures Unwrap(Wrap(entries[k]).value) == Received(entries[k])
      {
        UnwrapWrap(entries[k]);
        WrappedHashable(entries[k]);
      }
      UnwrapWrapDict(entries);
    case _ =>
  }

  /** The list step of `UnwrapWrap`: element-wise round trips make the list's. */
  lemma UnwrapWrapList(items: seq<Value>)
    requires |items| > 0
    requires forall i | 0 <= i < |items| ::
      Wrap(items[i]).Some? && Unwrap(Wrap(items[i]).value) == Received(items[i])
    ensures Wrap(PyList(items)).Some? && Unwrap(Wrap(PyList(items)).value) == Received(PyList(items))
  {
    var w := Wrap(PyList(items)).value;
    assert w.items == seq(|items|, i requires 0 <= i < |items| => Wrap(items[i]).value);
    assert Unwrap(w).items == Received(PyList(items)).items;
  }

  /** The dictionary step of `UnwrapWrap`: value-wise round trips make the dictionary's. */
  lemma UnwrapWrapDict(entries: map<Value, Value>)
    requires forall k | k in entries :: Wrap(entries[k]).Some? && Hashable(Wrap(entries[k]).value)
    requires forall k | k in entries :: Unwrap(Wrap(entries[k]).value) == Received(entries[k])
    ensures Wrap(PyDict(entries)).Some?
    ensures Unwrap(Wrap(PyDict(entries)).value) == Received(PyDict(entries))
  {
    var w := Wrap(PyDict(entries)).value;
    WrapKeepsKeys(entries);
    UnwrapKeepsKeys(w.entries);
    ReceivedKeepsKeys(entries);
    var u, r := Unwrap(w).entries, Received(PyDict(entries)).entries;
    forall k | k in u
      ensures u[k] == r[k]
    {
      calc {
        u[k];
        Unwrap(w.entries[k]);
        Unwrap(Wrap(entries[k]).value);
        Received(entries[k]);
        r[k];
      }
    }
    SameEntries(u, r);
  }

  lemma SameEntries(a: map<Value, Value>, b: map<Value, Value>)
    requires a.Keys == b.Keys
    requires forall k | k in a :: a[k] == b[k]
    ensures a == b
  {
  }

  lemma ReceivedKeepsKeys(entries: map<Value, Value>)
    ensures Received(PyDict(entries)).PyDict?
    ensures Received(PyDict(entries)).entries.Keys == entries.Keys
    ensures forall k | k in entries :: Received(PyDict(entries)).entries[k] == Received(entries[k])
  {
  }

  /** The values that survive the trip unchanged: no long, no byte string, no empty list. */
  predicate Stable(v: Value)
    decreases v
  {
    match v
    case PyNone => true
    case PyBool(_) => true
    case PyInt(_) => true
    case PyFloat(_) => true
    case PyUnicode(_) => true
    case PyObject(_) => true
    case PyList(items) => |items| > 0 && forall i | 0 <= i < |items| :: Stable(items[i])
    case PyDict(entries) =>
      forall k | k in entries :: Stable(entries[k]) && !entries[k].PyNone? && Hashable(entries[k])
    case _ => false
  }

  /** unwrap(wrap(x)) == x for ints, bools, floats, unicode strings, non-empty lists of them
      and dictionaries of scalars among them; a bool is tested before an int, so it comes back
      a bool. */
  lemma {:induction false} RoundTrip(v: Value)
    requires Stable(v)
    ensures Native(v) && Received(v) == v
    ensures Wrap(v).Some? && Unwrap(Wrap(v).value) == v
    decreases v
  {
    StableIsFixed(v);
    UnwrapWrap(v);
  }

  lemma {:induction false} StableIsFixed(v: Value)
    requires Stable(v)
    ensures Native(v) && Received(v) == v
    decreases v
  {
    match v
    case PyList(items) =>
      forall i | 0 <= i < |items|
        ensures Native(items[i]) && Received(items[i]) == items[i]
      {
        StableIsFixed(items[i]);
      }
      assert Received(v).items == items;
    case PyDict(entries) =>
      forall k | k in entries
        ensures Native(entries[k]) && Received(entries[k]) == entries[k]
      {
        StableIsFixed(entries[k]);
      }
      assert Received(v).entries == entries;
    case _ =>
  }

  /** None and the empty list are sent as different arrays, yet both are received as None. */
  lemma NoneAndEmptyListCollide()
    ensures Wrap(PyNone) != Wrap(PyList([]))
    ensures Unwrap(Wrap(PyNone).value) == PyNone && Unwrap(Wrap(PyList([])).value) == PyNone
  {
  }

  /** Dictionary keys are neither wrapped nor unwrapped; only the values are converted. */
  lemma WrapKeepsKeys(entries: map<Value, Value>)
    requires forall k | k in entries :: Wrap(entries[k]).Some? && Hashable(Wrap(entries[k]).value)
    ensures Wrap(PyDict(entries)).Some? && Wrap(PyDict(entries)).value.DbusDictionary?
    ensures Wrap(PyDict(entries)).value.entries.Keys == entries.Keys
    ensures forall k | k in entries :: Wrap(PyDict(entries)).value.entries[k] == Wrap(entries[k]).value
  {
  }

  lemma UnwrapKeepsKeys(entries: map<Value, Value>)
    ensures Unwrap(DbusDictionary(entries)).PyDict?
    ensures Unwrap(DbusDictionary(entries)).entries.Keys == entries.Keys
    ensures forall k | k in entries :: Unwrap(DbusDictionary(entries)).entries[k] == Unwrap(entries[k])
  {
  }

  /** Every D-Bus integer type, Byte included, is received as a plain int. */
  lemma DbusIntegersUnwrapToInt(v: Value)
    requires IsDbusInt(v)
    ensures Unwrap(v) == PyInt(v.n)
  {
  }
}
