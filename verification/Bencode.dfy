/** The bencode decoder (BEP 3) and the length scanner written beside it. */
module Bencode {
  import opened Bytes

  const CHAR_I: byte := 105
  const CHAR_L: byte := 108
  const CHAR_D: byte := 100
  const CHAR_E: byte := 101
  const CHAR_COLON: byte := 58
  const CHAR_0: byte := 48
  const CHAR_9: byte := 57
  const CHAR_MINUS: byte := 45

  datatype Value =
    | Int(i: int)
    | Str(s: Bytes)
    | List(items: seq<Value>)
    | Dict(entries: map<Bytes, Value>)

  datatype Error =
    | Empty | UnterminatedInteger | BadInteger | UnterminatedList | UnterminatedDict | KeyNotString
    | UnexpectedToken | MissingColon | BadLength | TruncatedString | KeyWithoutValue

  datatype Result<+T> = Ok(value: T) | Err(error: Error)

  /** fmt.Sscanf(s, "%d", &int64) as a function of the slice it is given; None is its error. */
  type Scan = Bytes -> Option<int>

  /** bytes.IndexByte. */
  function IndexByte(data: Bytes, c: byte): (r: int)
    ensures -1 <= r < |data|
    ensures if r == -1 then c !in data else data[r] == c && c !in data[..r]
  {
    if data == [] then -1
    else if data[0] == c then 0
    else
      var r := IndexByte(data[1..], c);
      if r == -1 then -1
      else
        assert data[..r + 1] == [data[0]] + data[1..][..r];
        r + 1
  }

  predicate IsDigit(c: byte) { CHAR_0 <= c <= CHAR_9 }

  predicate AllDigits(s: Bytes) { forall i :: 0 <= i < |s| ==> IsDigit(s[i]) }

  /** The number a digit string denotes, 0 for the empty one. */
  function DigitsValue(s: Bytes): nat
    requires AllDigits(s)
  {
    if s == [] then 0 else DigitsValue(s[..|s| - 1]) * 10 + (s[|s| - 1] as int - CHAR_0)
  }

  // ----- What the decoder accepts -----

  function Decode(scan: Scan, data: Bytes): (r: Result<(Value, nat)>)
    ensures r.Ok? ==> 1 <= r.value.1 <= |data|
    decreases |data|, 1
  {
    if |data| == 0 then Err(Empty)
    else if data[0] == CHAR_I then
      var end := IndexByte(data, CHAR_E);
      if end == -1 then Err(UnterminatedInteger)
      else
        match scan(data[1..end])
        case None => Err(BadInteger)
        case Some(n) => Ok((Int(n), end + 1))
    else if data[0] == CHAR_L then DecodeItems(scan, data, 1, [])
    else if data[0] == CHAR_D then DecodeEntries(scan, data, 1, map[])
    else if !IsDigit(data[0]) then Err(UnexpectedToken)
    else
      var colon := IndexByte(data, CHAR_COLON);
      if colon == -1 then Err(MissingColon)
      else if !AllDigits(data[..colon]) then Err(BadLength)
      else
        var end := colon + 1 + DigitsValue(data[..colon]);
        if end > |data| then Err(TruncatedString) else Ok((Str(data[colon + 1..end]), end))
  }

  function DecodeItems(scan: Scan, data: Bytes, pos: nat, items: seq<Value>): (r: Result<(Value, nat)>)
    requires 1 <= pos <= |data|
    ensures r.Ok? ==> pos < r.value.1 <= |data|
    decreases |data| - pos, 2
  {
    if pos == |data| then Err(UnterminatedList)
    else if data[pos] == CHAR_E then Ok((List(items), pos + 1))
    else
      match Decode(scan, data[pos..])
      case Err(e) => Err(e)
      case Ok((item, n)) => DecodeItems(scan, data, pos + n, items + [item])
  }

  /** One key and its value. */
  function DecodeEntry(scan: Scan, data: Bytes, pos: nat): (r: Result<(Bytes, Value, nat)>)
    requires 1 <= pos < |data|
    ensures r.Ok? ==> pos < r.value.2 <= |data|
    decreases |data| - pos, 2
  {
    match Decode(scan, data[pos..])
    case Err(e) => Err(e)
    case Ok((key, k)) =>
      if !key.Str? then Err(KeyNotString)
      else
        match Decode(scan, data[pos + k..])
        case Err(e) => Err(e)
        case Ok((value, n)) => Ok((key.s, value, pos + k + n))
  }

  function DecodeEntries(scan: Scan, data: Bytes, pos: nat, entries: map<Bytes, Value>): (r: Result<(Value, nat)>)
    requires 1 <= pos <= |data|
    ensures r.Ok? ==> pos < r.value.1 <= |data|
    decreases |data| - pos, 3
  {
    if pos == |data| then Err(UnterminatedDict)
    else if data[pos] == CHAR_E then Ok((Dict(entries), pos + 1))
    else
      match DecodeEntry(scan, data, pos)
      case Err(e) => Err(e)
      case Ok((key, value, next)) => DecodeEntries(scan, data, next, entries[key := value])
  }

  /** decodeBencodeValue, with one method per container loop. */
  method DecodeValue(scan: Scan, data: Bytes) returns (r: Result<(Value, nat)>)
    ensures r == Decode(scan, data)
    decreases |data|, 1
  {
    if |data| == 0 {
      return Err(Empty);
    }
    if data[0] == CHAR_I {
      var end := IndexByte(data, CHAR_E);
      if end == -1 {
        return Err(UnterminatedInteger);
      }
      var n := scan(data[1..end]);
      return if n.None? then Err(BadInteger) else Ok((Int(n.value), end + 1));
    } else if data[0] == CHAR_L {
      r := DecodeList(scan, data);
      return;
    } else if data[0] == CHAR_D {
      r := DecodeDict(scan, data);
      return;
    } else if !IsDigit(data[0]) {
      return Err(UnexpectedToken);
    }
    var colon := IndexByte(data, CHAR_COLON);
    if colon == -1 {
      return Err(MissingColon);
    }
    var length := ParseLength(data[..colon]);
    if length.Err? {
      return Err(length.error);
    }
    var end := colon + 1 + length.value;
    return if end > |data| then Err(TruncatedString) else Ok((Str(data[colon + 1..end]), end));
  }

  method DecodeList(scan: Scan, data: Bytes) returns (r: Result<(Value, nat)>)
    requires data != []
    ensures r == DecodeItems(scan, data, 1, [])
    decreases |data|, 0
  {
    var items, pos := [], 1;
    while pos < |data| && data[pos] != CHAR_E
      invariant 1 <= pos <= |data|
      invariant DecodeItems(scan, data, 1, []) == DecodeItems(scan, data, pos, items)
      decreases |data| - pos
    {
      var item := DecodeValue(scan, data[pos..]);
      if item.Err? {
        return Err(item.error);
      }
      items, pos := items + [item.value.0], pos + item.value.1;
    }
    return if pos >= |data| then Err(UnterminatedList) else Ok((List(items), pos + 1));
  }

  method DecodeDict(scan: Scan, data: Bytes) returns (r: Result<(Value, nat)>)
    requires data != []
    ensures r == DecodeEntries(scan, data, 1, map[])
    decreases |data|, 0
  {
    var entries, pos := map[], 1;
    while pos < |data| && data[pos] != CHAR_E
      invariant 1 <= pos <= |data|
      invariant DecodeEntries(scan, data, 1, map[]) == DecodeEntries(scan, data, pos, entries)
      decreases |data| - pos
    {
      var entry := DecodeKeyValue(scan, data, pos);
      if entry.Err? {
        return Err(entry.error);
      }
      entries, pos := entries[entry.value.0 := entry.value.1], entry.value.2;
    }
    return if pos >= |data| then Err(UnterminatedDict) else Ok((Dict(entries), pos + 1));
  }

  method DecodeKeyValue(scan: Scan, data: Bytes, pos: nat) returns (r: Result<(Bytes, Value, nat)>)
    requires 1 <= pos < |data|
    ensures r == DecodeEntry(scan, data, pos)
    decreases |data| - pos, 2
  {
    var key := DecodeValue(scan, data[pos..]);
    if key.Err? {
      return Err(key.error);
    }
    if !key.value.0.Str? {
      return Err(KeyNotString);
    }
    var next := pos + key.value.1;
    var value := DecodeValue(scan, data[next..]);
    return if value.Err? then Err(value.error) else Ok((key.value.0.s, value.value.0, next + value.value.1));
  }

  /** The digit loop the decoder and the scanner share. */
  method ParseLength(s: Bytes) returns (r: Result<nat>)
    ensures r == if AllDigits(s) then Ok(DigitsValue(s)) else Err(BadLength)
  {
    var length := 0;
    for k := 0 to |s|
      invariant AllDigits(s[..k]) && length == DigitsValue(s[..k])
    {
      if !IsDigit(s[k]) {
        return Err(BadLength);
      }
      assert s[..k + 1][..k] == s[..k];
      length := length * 10 + (s[k] as int - CHAR_0);
    }
    assert s[..|s|] == s;
    return Ok(length);
  }

  // ----- What the length scanner accepts -----

  function Scanned(data: Bytes): (r: Result<nat>)
    ensures r.Ok? ==> 1 <= r.value <= |data|
    decreases |data|, 1
  {
    if |data| == 0 then Err(Empty)
    else if data[0] == CHAR_I then
      var end := IndexByte(data[1..], CHAR_E);
      if end < 0 then Err(UnterminatedInteger) else Ok(end + 2)
    else if data[0] == CHAR_L then ScannedItems(data, 1)
    else if data[0] == CHAR_D then ScannedEntries(data, 1)
    else
      var colon := IndexByte(data, CHAR_COLON);
      if colon < 0 then Err(MissingColon)
      else if !AllDigits(data[..colon]) then Err(BadLength)
      else
        var total := colon + 1 + DigitsValue(data[..colon]);
        if total > |data| then Err(TruncatedString) else Ok(total)
  }

  function ScannedItems(data: Bytes, pos: nat): (r: Result<nat>)
    requires 1 <= pos <= |data|
    ensures r.Ok? ==> pos < r.value <= |data|
    decreases |data| - pos, 2
  {
    if pos == |data| then Err(UnterminatedList)
    else if data[pos] == CHAR_E then Ok(pos + 1)
    else
      match Scanned(data[pos..])
      case Err(e) => Err(e)
      case Ok(n) => ScannedItems(data, pos + n)
  }

  function ScannedEntries(data: Bytes, pos: nat): (r: Result<nat>)
    requires 1 <= pos <= |data|
    ensures r.Ok? ==> pos < r.value <= |data|
    decreases |data| - pos, 2
  {
    if pos == |data| then Err(UnterminatedDict)
    else if data[pos] == CHAR_E then Ok(pos + 1)
    else
      match Scanned(data[pos..])
      case Err(e) => Err(e)
      case Ok(k) =>
        if pos + k >= |data| then Err(KeyWithoutValue)
        else
          match Scanned(data[pos + k..])
          case Err(e) => Err(e)
          case Ok(n) => ScannedEntries(data, pos + k + n)
  }

  /** bencodeLen, with its cursor loops. */
  method BencodeLen(data: Bytes) returns (r: Result<nat>)
    ensures r == Scanned(data)
    decreases |data|
  {
    if |data| == 0 {
      return Err(Empty);
    }
    if data[0] == CHAR_I {
      var end := IndexByte(data[1..], CHAR_E);
      return if end < 0 then Err(UnterminatedInteger) else Ok(end + 2);
    } else if data[0] == CHAR_L {
      var pos := 1;
      while pos < |data|
        invariant 1 <= pos <= |data|
        invariant Scanned(data) == ScannedItems(data, pos)
        decreases |data| - pos
      {
        if data[pos] == CHAR_E {
          return Ok(pos + 1);
        }
        var n := BencodeLen(data[pos..]);
        if n.Err? {
          return n;
        }
        pos := pos + n.value;
      }
      return Err(UnterminatedList);
    } else if data[0] == CHAR_D {
      var pos := 1;
      while pos < |data|
        invariant 1 <= pos <= |data|
        invariant Scanned(data) == ScannedEntries(data, pos)
        decreases |data| - pos
      {
        if data[pos] == CHAR_E {
          return Ok(pos + 1);
        }
        var k := BencodeLen(data[pos..]);
        if k.Err? {
          return k;
        }
        if pos + k.value >= |data| {
          return Err(KeyWithoutValue);
        }
        var n := BencodeLen(data[pos + k.value..]);
        if n.Err? {
          return n;
        }
        pos := pos + k.value + n.value;
      }
      return Err(UnterminatedDict);
    }
    var colon := IndexByte(data, CHAR_COLON);
    if colon < 0 {
      return Err(MissingColon);
    }
    var length := ParseLength(data[..colon]);
    if length.Err? {
      return length;
    }
    var total := colon + 1 + length.value;
    return if total > |data| then Err(TruncatedString) else Ok(total);
  }
}
