/** The input validators of `blinky/animation.py` and the colour triple
    they produce. */
module Validate {
  import opened Values

  /** An RGB triple as `assert_color` returns it. Only the shape is
      checked, so the channels are whatever values the list held. */
  datatype Color = Color(r: Value, g: Value, b: Value)

  const Black := Color(JInt(0), JInt(0), JInt(0))

  /** True when every channel is an integer, so arithmetic on it works. */
  predicate IsIntColor(c: Color) {
    c.r.JInt? && c.g.JInt? && c.b.JInt?
  }

  /** `assert_int`: integers pass through unchanged, anything else raises. */
  function AssertInt(v: Value): (r: Result<int>)
    ensures r.Ok? <==> v.JInt?
    ensures r.Ok? ==> v == JInt(r.value)
    ensures r.Err? ==> r.error == NotAnInteger(v)
  {
    if v.JInt? then Ok(v.i) else Err(NotAnInteger(v))
  }

  /** `assert_list`: lists pass through unchanged, anything else raises. */
  function AssertList(v: Value): (r: Result<seq<Value>>)
    ensures r.Ok? <==> v.JList?
    ensures r.Ok? ==> v == JList(r.value)
    ensures r.Err? ==> r.error == NotAList(v)
  {
    if v.JList? then Ok(v.items) else Err(NotAList(v))
  }

  /** `assert_color`: a list of exactly three elements becomes the triple
      of those elements; anything else raises. */
  function AssertColor(v: Value): (r: Result<Color>)
    ensures r.Ok? <==> v.JList? && |v.items| == 3
    ensures r.Ok? ==> v.items == [r.value.r, r.value.g, r.value.b]
    ensures r.Err? ==> r.error == NotAColor(v)
  {
    if v.JList? && |v.items| == 3 then Ok(Color(v.items[0], v.items[1], v.items[2]))
    else Err(NotAColor(v))
  }

  /** The idiom `x = default; if key in spec: x = assert_int(spec[key])`. */
  function IntField(fields: map<string, Value>, key: string, default: int): (r: Result<int>)
    ensures key !in fields ==> r == Ok(default)
    ensures key in fields ==> r == AssertInt(fields[key])
  {
    if key in fields then AssertInt(fields[key]) else Ok(default)
  }
}
