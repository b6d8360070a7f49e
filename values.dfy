/** JSON-like values as the configuration parser hands them over, the
    exceptions the engine can raise, and Python's integer `%` and list
    indexing, which the engine relies on. */
module Values {

  /** A decoded JSON value. Numbers are integers only. */
  datatype Value =
    | JInt(i: int)
    | JStr(s: string)
    | JList(items: seq<Value>)
    | JObj(fields: map<string, Value>)
    | JNull

  /** The exceptions the engine raises. The kinds describe the cause; the
      model claims agreement on whether something is raised, not on the
      Python exception class. */
  datatype Error =
    | NotAnInteger(v: Value)
    | NotAList(v: Value)
    | NotAColor(v: Value)
    | MissingKey(key: string)
    | NotSubscriptable
    | NotIterable
    | UnknownPattern(kind: Value)
    | UnknownLedSpec
    | ZeroDivision
    | IndexOutOfRange(index: int)
    | BadOperand
    | OutOfMemory
    /** Not an exception: the source loops forever without raising. */
    | Diverges
    /** A failure raised by a collaborator (network, driver). */
    | External

  datatype Option<+T> = None | Some(value: T)

  datatype Result<+T> = Ok(value: T) | Err(error: Error) {
    predicate IsFailure() { Err? }

    function PropagateFailure<U>(): Result<U>
      requires Err?
    {
      Err(error)
    }

    function Extract(): T
      requires Ok?
    {
      value
    }
  }

  /** Python's `a % b` on integers: the remainder takes the sign of the
      divisor. Dafny's own `%` agrees with it only for `b > 0`. */
  function PyMod(a: int, b: int): (r: int)
    requires b != 0
    ensures b > 0 ==> 0 <= r < b
    ensures b < 0 ==> b < r <= 0
    ensures (a - r) % b == 0
  {
    RemainderCongruent(a, b);
    if b > 0 || a % b == 0 then a % b else a % b + b
  }

  /** Both candidate remainders differ from `a` by a multiple of `b`. */
  lemma RemainderCongruent(a: int, b: int)
    requires b != 0
    ensures (a - a % b) % b == 0
    ensures (a - (a % b + b)) % b == 0
  {
    var q := a / b;
    assert a - a % b == b * q;
    DivisibleMultiple(b, q);
    assert a - (a % b + b) == b * (q - 1);
    DivisibleMultiple(b, q - 1);
  }

  /** A multiple of `b` leaves no remainder. */
  lemma DivisibleMultiple(b: int, q: int)
    requires b != 0
    ensures (b * q) % b == 0
  {
    var m := b * q;
    var d := q - m / b;
    assert b * d == m % b by {
      assert m == b * (m / b) + m % b;
      assert b * d == b * q - b * (m / b);
    }
    NonzeroMultiple(b, d);
  }

  /** The remainder is the unique `r` in `[0, m)` with `x == m * q + r`. */
  lemma ModUnique(x: int, m: int, q: int, r: int)
    requires m > 0 && x == m * q + r && 0 <= r < m
    ensures x % m == r
  {
    var d := q - x / m;
    assert m * d == x % m - r by {
      assert x == m * (x / m) + x % m;
      assert m * d == m * q - m * (x / m);
    }
    NonzeroMultiple(m, d);
  }

  /** A non-zero multiple of `b` is negative or at least `|b|`. */
  lemma NonzeroMultiple(b: int, d: int)
    requires b != 0
    ensures d != 0 ==> b * d < 0 || b * d >= (if b < 0 then -b else b)
  {
  }

  /** The number of times `range(n)` goes round. */
  function Max0(n: int): nat {
    if n > 0 then n else 0
  }

  /** `a % b` with Python's ZeroDivisionError for `b == 0`. */
  function Mod(a: int, b: int): (r: Result<int>)
    ensures r.Err? <==> b == 0
    ensures r.Ok? ==> r.value == PyMod(a, b)
  {
    if b == 0 then Err(ZeroDivision) else Ok(PyMod(a, b))
  }

  /** The slot `xs[i]` addresses in a Python list of length `n`: negative
      indices count from the end, anything else is an IndexError. */
  function ListIndex(i: int, n: nat): (r: Result<nat>)
    ensures r.Ok? <==> 0 <= i + n && i < n
    ensures r.Ok? ==> r.value < n && (if i < 0 then r.value == i + n else r.value == i)
  {
    if 0 <= i < n then Ok(i)
    else if 0 <= i + n && i < 0 then Ok(i + n)
    else Err(IndexOutOfRange(i))
  }

  /** `obj[key]` on a dict: KeyError when the key is absent. */
  function Get(fields: map<string, Value>, key: string): (r: Result<Value>)
    ensures r.Ok? <==> key in fields
    ensures r.Ok? ==> r.value == fields[key]
  {
    if key in fields then Ok(fields[key]) else Err(MissingKey(key))
  }

  /** The elements a `for` loop over `v` yields, for a caller that then
      subscripts every element by a field name. Iterating a dict yields
      its string keys and iterating a string yields one-character strings;
      subscripting either by a name is a TypeError, so only an empty dict
      or string gets through. Integers and None are not iterable. */
  function Records(v: Value): (r: Result<seq<Value>>)
    ensures r.Ok? <==> (v.JList? || v == JObj(map[]) || v == JStr(""))
    ensures r.Ok? && v.JList? ==> r.value == v.items
    ensures r.Ok? && !v.JList? ==> r.value == []
  {
    match v
    case JList(items) => Ok(items)
    case JObj(fields) => if fields == map[] then Ok([]) else Err(NotSubscriptable)
    case JStr(s) => if s == "" then Ok([]) else Err(NotSubscriptable)
    case _ => Err(NotIterable)
  }

  /** Concatenation regroups freely; a step the solver is slow to find on
      its own inside larger proofs. */
  lemma AppendAssociates<T>(a: seq<T>, b: seq<T>, c: seq<T>)
    ensures a + (b + c) == (a + b) + c
  {
  }
}
