/**
 What a serialised byte string means: the decoder as a function of the buffer and a position in it.
 It is total; anything the format does not allow is Invalid.
 */
module SeriDecode {
  import opened LuaValue
  import opened SeriFormat

  datatype Step<T> = Read(value: T, at: nat) | Invalid

  function Int64Of(n: int): Int64 {
    (n + 0x8000_0000_0000_0000) % 0x1_0000_0000_0000_0000 - 0x8000_0000_0000_0000
  }

  function GetBytes(s: seq<Byte>, p: nat, n: nat): (r: Step<seq<Byte>>)
    requires p <= |s|
    ensures r.Read? ==> |r.value| == n && r.at == p + n <= |s|
  {
    if |s| - p < n then Invalid else Read(s[p..p + n], p + n)
  }

  function GetInteger(s: seq<Byte>, p: nat, cookie: nat): (r: Step<Int64>)
    requires p <= |s|
    ensures r.Read? ==> p <= r.at <= |s|
  {
    if cookie == NUMBER_ZERO then Read(0, p)
    else if cookie !in {NUMBER_BYTE, NUMBER_WORD, NUMBER_DWORD, NUMBER_QWORD} then Invalid
    else
      var width := if cookie == NUMBER_QWORD then 8 else cookie;
      match GetBytes(s, p, width)
      case Invalid => Invalid
      case Read(bytes, at) =>
        var n := FromLittleEndian(bytes);
        Read(if cookie == NUMBER_DWORD then Int32(n) else Int64Of(n), at)
  }

  /** A string of 2^31 bytes or more is refused: its length is passed on as a negative int. */
  function GetBuffer(s: seq<Byte>, p: nat, n: nat): (r: Step<Data>)
    requires p <= |s|
    ensures r.Read? ==> p <= r.at <= |s| && r.value.Leaf?
  {
    if n >= 0x8000_0000 then Invalid
    else match GetBytes(s, p, n)
      case Invalid => Invalid
      case Read(bytes, at) => Read(Leaf(Str(bytes)), at)
  }

  function GetLongString(s: seq<Byte>, p: nat, cookie: nat): (r: Step<Data>)
    requires p <= |s|
    ensures r.Read? ==> p <= r.at <= |s| && r.value.Leaf?
  {
    if cookie !in {2, 4} then Invalid
    else match GetBytes(s, p, cookie)
      case Invalid => Invalid
      case Read(bytes, at) => GetBuffer(s, at, FromLittleEndian(bytes))
  }

  function GetWord(s: seq<Byte>, p: nat, isReal: bool): (r: Step<Data>)
    requires p <= |s|
    ensures r.Read? ==> p <= r.at <= |s| && r.value.Leaf?
  {
    match GetBytes(s, p, 8)
    case Invalid => Invalid
    case Read(bytes, at) => Read(Leaf(if isReal then Real(bytes) else Pointer(bytes)), at)
  }

  /** The declared size of a table's array part; the number is cut down to a 32-bit int. */
  function GetArraySize(s: seq<Byte>, p: nat, cookie: nat): (r: Step<int>)
    requires p <= |s| && cookie < MAX_COOKIE
    ensures r.Read? ==> p <= r.at <= |s| && r.value < 0x8000_0000
  {
    if cookie != MAX_COOKIE - 1 then Read(cookie, p)
    else if p == |s| || s[p] % 8 != TYPE_NUMBER || s[p] / 8 == NUMBER_REAL then Invalid
    else match GetInteger(s, p + 1, s[p] / 8)
      case Invalid => Invalid
      case Read(n, at) => Read(Int32(n), at)
  }

  function UnpackOne(s: seq<Byte>, p: nat): (r: Step<Data>)
    requires p <= |s|
    ensures r.Read? ==> p < r.at <= |s|
    decreases |s| - p, 0, 0
  {
    if p == |s| then Invalid else PushValue(s, p + 1, s[p] % 8, s[p] / 8)
  }

  /** Below the largest cookie the size is the cookie; otherwise it is the integer that comes next, cut
      down to an int, and anything but an integer there is refused. */
  lemma DeclaredSize(s: seq<Byte>, p: nat, cookie: nat, size: int, at: nat)
    requires p <= |s| && cookie < MAX_COOKIE
    ensures GetArraySize(s, p, cookie) == Read(size, at) <==>
              if cookie < MAX_COOKIE - 1 then size == cookie && at == p
              else exists n: Int64 :: UnpackOne(s, p) == Read(Leaf(Integer(n)), at) && size == Int32(n)
  {
    if cookie == MAX_COOKIE - 1 && p < |s| && s[p] % 8 == TYPE_NUMBER && s[p] / 8 != NUMBER_REAL {
      match GetInteger(s, p + 1, s[p] / 8)
      case Invalid =>
      case Read(n, after) => assert UnpackOne(s, p) == Read(Leaf(Integer(n)), after);
    }
  }

  function PushValue(s: seq<Byte>, p: nat, kind: nat, cookie: nat): (r: Step<Data>)
    requires p <= |s| && cookie < MAX_COOKIE
    ensures r.Read? ==> p <= r.at <= |s|
    decreases |s| - p, 3, 0
  {
    if kind == TYPE_NIL then Read(Absent, p)
    else if kind == TYPE_BOOLEAN then Read(Leaf(Boolean(cookie != 0)), p)
    else if kind == TYPE_NUMBER then
      if cookie == NUMBER_REAL then GetWord(s, p, true)
      else (match GetInteger(s, p, cookie) case Invalid => Invalid case Read(n, at) => Read(Leaf(Integer(n)), at))
    else if kind == TYPE_USERDATA then GetWord(s, p, false)
    else if kind == TYPE_SHORT_STRING then GetBuffer(s, p, cookie)
    else if kind == TYPE_LONG_STRING then GetLongString(s, p, cookie)
    else if kind == TYPE_TABLE then UnpackTable(s, p, cookie)
    else Invalid
  }

  function UnpackTable(s: seq<Byte>, p: nat, cookie: nat): (r: Step<Data>)
    requires p <= |s| && cookie < MAX_COOKIE
    ensures r.Read? ==> p <= r.at <= |s| && r.value.Fields?
    decreases |s| - p, 2, 0
  {
    match GetArraySize(s, p, cookie)
    case Invalid => Invalid
    case Read(size, at) =>
      match UnpackArray(s, at, 1, size, Fields(map[], []))
      case Invalid => Invalid
      case Read(t, at') => UnpackHash(s, at', t)
  }

  /** Slots i to size, each filled with the next value. */
  function UnpackArray(s: seq<Byte>, p: nat, i: nat, size: int, t: Data): (r: Step<Data>)
    requires p <= |s| && t.Fields? && i > 0 && size < 0x8000_0000
    ensures r.Read? ==> p <= r.at <= |s| && r.value.Fields?
    decreases |s| - p, 1, 0
  {
    if i > size then Read(t, p)
    else match UnpackOne(s, p)
      case Invalid => Invalid
      case Read(v, at) => UnpackArray(s, at, i + 1, size, RawSet(t, Leaf(Integer(i)), v).value)
  }

  /** Pairs of key and value, up to a nil key. */
  function UnpackHash(s: seq<Byte>, p: nat, t: Data): (r: Step<Data>)
    requires p <= |s| && t.Fields?
    ensures r.Read? ==> p < r.at <= |s| && r.value.Fields?
    decreases |s| - p, 1, 0
  {
    match UnpackOne(s, p)
    case Invalid => Invalid
    case Read(key, at) =>
      if key == Absent then Read(t, at)
      else match UnpackOne(s, at)
        case Invalid => Invalid
        case Read(v, at') =>
          (match RawSet(t, key, v)
           case None => Invalid
           case Some(t') => UnpackHash(s, at', t'))
  }

  /** All the values from p to the end. */
  function UnpackAll(s: seq<Byte>, p: nat): Option<seq<Data>>
    requires p <= |s|
    decreases |s| - p
  {
    if p == |s| then Some([])
    else match UnpackOne(s, p)
      case Invalid => None
      case Read(v, at) =>
        match UnpackAll(s, at)
        case None => None
        case Some(rest) => Some([v] + rest)
  }
}
