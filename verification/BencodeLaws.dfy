/** Laws of the bencode decoder: it reads nothing past what it consumes, the length scanner agrees with
    it, and it inverts the canonical encoding of BEP 3. */
module BencodeLaws {
  import opened Bytes
  import opened Bencode

  // ----- Only the consumed prefix matters -----

  lemma IndexByteAt(data: Bytes, c: byte, i: nat)
    requires i < |data| && data[i] == c
    requires forall k :: 0 <= k < i ==> data[k] != c
    ensures IndexByte(data, c) == i
  {
    var r := IndexByte(data, c);
    assert c in data;
    assert forall k :: 0 <= k < r ==> data[k] == data[..r][k];
  }

  lemma IndexByteStable(a: Bytes, b: Bytes, n: nat, c: byte)
    requires n <= |a| && n <= |b| && a[..n] == b[..n]
    requires 0 <= IndexByte(a, c) < n
    ensures IndexByte(b, c) == IndexByte(a, c)
  {
    var i := IndexByte(a, c);
    assert b[i] == b[..n][i] == a[..n][i];
    forall k | 0 <= k < i ensures b[k] != c {
      assert b[k] == b[..n][k] == a[..n][k] == a[..i][k];
    }
    IndexByteAt(b, c, i);
  }

  /** A value decoded from the first n bytes is decoded from every string that starts with those bytes. */
  lemma {:induction false} DecodeStable(scan: Scan, a: Bytes, b: Bytes)
    requires Decode(scan, a).Ok?
    requires Decode(scan, a).value.1 <= |b| && a[..Decode(scan, a).value.1] == b[..Decode(scan, a).value.1]
    ensures Decode(scan, b) == Decode(scan, a)
    decreases |a|, 1
  {
    var n := Decode(scan, a).value.1;
    assert a[0] == a[..n][0] == b[..n][0] == b[0];
    if a[0] == CHAR_I {
      IndexByteStable(a, b, n, CHAR_E);
      assert a[1..n - 1] == a[..n][1..n - 1] == b[..n][1..n - 1] == b[1..n - 1];
    } else if a[0] == CHAR_L {
      ItemsStable(scan, a, b, 1, []);
    } else if a[0] == CHAR_D {
      EntriesStable(scan, a, b, 1, map[]);
    } else {
      var colon := IndexByte(a, CHAR_COLON);
      IndexByteStable(a, b, n, CHAR_COLON);
      assert a[..colon] == a[..n][..colon] == b[..n][..colon] == b[..colon];
      assert a[colon + 1..n] == a[..n][colon + 1..] == b[..n][colon + 1..] == b[colon + 1..n];
    }
  }

  lemma SuffixAgrees(a: Bytes, b: Bytes, n: nat, pos: nat, k: nat)
    requires pos + k <= n <= |a| && n <= |b| && a[..n] == b[..n]
    ensures a[pos..][..k] == b[pos..][..k]
    ensures k > 0 ==> a[pos] == b[pos]
  {
    assert a[pos..][..k] == a[..n][pos..pos + k];
    assert b[pos..][..k] == b[..n][pos..pos + k];
    if k > 0 {
      assert a[pos] == a[..n][pos];
      assert b[pos] == b[..n][pos];
    }
  }

  lemma {:induction false} ItemsStable(scan: Scan, a: Bytes, b: Bytes, pos: nat, items: seq<Value>)
    requires 1 <= pos <= |a| && DecodeItems(scan, a, pos, items).Ok?
    requires var n := DecodeItems(scan, a, pos, items).value.1; n <= |b| && a[..n] == b[..n]
    ensures DecodeItems(scan, b, pos, items) == DecodeItems(scan, a, pos, items)
    decreases |a| - pos, 2
  {
    hide Decode;
    var n := DecodeItems(scan, a, pos, items).value.1;
    SuffixAgrees(a, b, n, pos, 1);
    if a[pos] != CHAR_E {
      var (item, k) := Decode(scan, a[pos..]).value;
      SuffixAgrees(a, b, n, pos, k);
      DecodeStable(scan, a[pos..], b[pos..]);
      ItemsStable(scan, a, b, pos + k, items + [item]);
    }
  }

  lemma {:induction false} EntryStable(scan: Scan, a: Bytes, b: Bytes, pos: nat, n: nat)
    requires 1 <= pos < |a| && DecodeEntry(scan, a, pos).Ok? && DecodeEntry(scan, a, pos).value.2 <= n
    requires n <= |a| && n <= |b| && a[..n] == b[..n]
    ensures DecodeEntry(scan, b, pos) == DecodeEntry(scan, a, pos)
    decreases |a| - pos, 2
  {
    hide Decode;
    var (key, k) := Decode(scan, a[pos..]).value;
    var (value, m) := Decode(scan, a[pos + k..]).value;
    SuffixAgrees(a, b, n, pos, k);
    DecodeStable(scan, a[pos..], b[pos..]);
    SuffixAgrees(a, b, n, pos + k, m);
    DecodeStable(scan, a[pos + k..], b[pos + k..]);
  }

  lemma {:induction false} EntriesStable(scan: Scan, a: Bytes, b: Bytes, pos: nat, entries: map<Bytes, Value>)
    requires 1 <= pos <= |a| && DecodeEntries(scan, a, pos, entries).Ok?
    requires var n := DecodeEntries(scan, a, pos, entries).value.1; n <= |b| && a[..n] == b[..n]
    ensures DecodeEntries(scan, b, pos, entries) == DecodeEntries(scan, a, pos, entries)
    decreases |a| - pos, 3
  {
    hide Decode, DecodeEntry;
    var n := DecodeEntries(scan, a, pos, entries).value.1;
    SuffixAgrees(a, b, n, pos, 1);
    if a[pos] != CHAR_E {
      var (key, value, next) := DecodeEntry(scan, a, pos).value;
      EntryStable(scan, a, b, pos, n);
      EntriesStable(scan, a, b, next, entries[key := value]);
    }
  }

  // ----- The scanner agrees with the decoder -----

  /** Where the decoder accepts, the scanner returns the length the decoder consumes. */
  lemma {:induction false} ScannerAgrees(scan: Scan, data: Bytes)
    requires Decode(scan, data).Ok?
    ensures Scanned(data) == Ok(Decode(scan, data).value.1)
    decreases |data|, 1
  {
    if data[0] == CHAR_I {
      var end := IndexByte(data, CHAR_E);
    } else if data[0] == CHAR_L {
      ItemsScanned(scan, data, 1, []);
    } else if data[0] == CHAR_D {
      EntriesScanned(scan, data, 1, map[]);
    }
  }

  lemma {:induction false} ItemsScanned(scan: Scan, data: Bytes, pos: nat, items: seq<Value>)
    requires 1 <= pos <= |data| && DecodeItems(scan, data, pos, items).Ok?
    ensures ScannedItems(data, pos) == Ok(DecodeItems(scan, data, pos, items).value.1)
    decreases |data| - pos, 2
  {
    hide Decode, Scanned;
    if data[pos] != CHAR_E {
      var (item, k) := Decode(scan, data[pos..]).value;
      ScannerAgrees(scan, data[pos..]);
      ItemsScanned(scan, data, pos + k, items + [item]);
    }
  }

  lemma {:induction false} EntriesScanned(scan: Scan, data: Bytes, pos: nat, entries: map<Bytes, Value>)
    requires 1 <= pos <= |data| && DecodeEntries(scan, data, pos, entries).Ok?
    ensures ScannedEntries(data, pos) == Ok(DecodeEntries(scan, data, pos, entries).value.1)
    decreases |data| - pos, 3
  {
    hide Decode, Scanned;
    if data[pos] != CHAR_E {
      var (key, value, next) := DecodeEntry(scan, data, pos).value;
      var k := Decode(scan, data[pos..]).value.1;
      ScannerAgrees(scan, data[pos..]);
      ScannerAgrees(scan, data[pos + k..]);
      EntriesScanned(scan, data, next, entries[key := value]);
    }
  }

  /** The scanner accepts more: a string whose length digits are missing, and a key that is not a string. */
  lemma ScannerAcceptsMore(scan: Scan)
    ensures Scanned([CHAR_COLON]) == Ok(1) && Decode(scan, [CHAR_COLON]) == Err(UnexpectedToken)
    ensures var d := [CHAR_D, CHAR_L, CHAR_E, CHAR_L, CHAR_E, CHAR_E];
            Scanned(d) == Ok(6) && Decode(scan, d) == Err(KeyNotString)
  {
    var s := [CHAR_COLON];
    assert IndexByte(s, CHAR_COLON) == 0;
    assert s[..0] == [];
    var d := [CHAR_D, CHAR_L, CHAR_E, CHAR_L, CHAR_E, CHAR_E];
    EmptyListDecodes(scan, d[1..]);
    EmptyListDecodes(scan, d[3..]);
    assert ScannedEntries(d, 5) == Ok(6);
    assert ScannedEntries(d, 1) == ScannedEntries(d, 5);
    assert DecodeEntry(scan, d, 1) == Err(KeyNotString);
  }

  lemma EmptyListDecodes(scan: Scan, data: Bytes)
    requires |data| >= 2 && data[0] == CHAR_L && data[1] == CHAR_E
    ensures Decode(scan, data) == Ok((List([]), 2)) && Scanned(data) == Ok(2)
  {
  }

  // ----- The canonical encoding -----

  function Decimal(n: nat): (s: Bytes)
    ensures |s| >= 1 && AllDigits(s)
    ensures DigitsValue(s) == n
  {
    if n < 10 then [CHAR_0 + n]
    else
      var s := Decimal(n / 10) + [CHAR_0 + n % 10];
      assert s[..|s| - 1] == Decimal(n / 10);
      s
  }

  function DecimalInt(i: int): Bytes {
    if i < 0 then [CHAR_MINUS] + Decimal(-i) else Decimal(i)
  }

  predicate Int64(i: int) { -0x8000_0000_0000_0000 <= i < 0x8000_0000_0000_0000 }

  /** What the round trip needs of Sscanf: it reads back canonical decimals of int64 numbers. */
  ghost predicate ReadsDecimals(scan: Scan) {
    forall i | Int64(i) :: scan(DecimalInt(i)) == Some(i)
  }

  ghost predicate Encodable(v: Value) {
    match v
    case Int(i) => Int64(i)
    case Str(_) => true
    case List(items) => forall x | x in items :: Encodable(x)
    case Dict(entries) => forall k | k in entries :: Encodable(entries[k])
  }

  ghost predicate IsLeast(k: Bytes, keys: set<Bytes>) {
    k in keys && forall x | x in keys :: x == k || LexLess(k, x)
  }

  lemma {:induction false} LeastExists(keys: set<Bytes>)
    requires keys != {}
    ensures exists k :: IsLeast(k, keys)
  {
    var x :| x in keys;
    if keys == {x} {
      assert IsLeast(x, keys);
    } else {
      LeastExists(keys - {x});
      var m :| IsLeast(m, keys - {x});
      LexTotal(x, m);
      if LexLess(x, m) {
        forall y | y in keys ensures y == x || LexLess(x, y) {
          if y != x && y != m { LexTransitive(x, m, y); }
        }
        assert IsLeast(x, keys);
      } else {
        assert IsLeast(m, keys);
      }
    }
  }

  /** The keys in the order BEP 3 prescribes, sorted as raw strings. */
  ghost function SortedKeys(keys: set<Bytes>): (s: seq<Bytes>)
    ensures forall k :: k in s <==> k in keys
    ensures forall i, j :: 0 <= i < j < |s| ==> LexLess(s[i], s[j])
  {
    if keys == {} then []
    else
      LeastExists(keys);
      var k :| IsLeast(k, keys);
      [k] + SortedKeys(keys - {k})
  }

  function EncodeString(s: Bytes): Bytes { Decimal(|s|) + [CHAR_COLON] + s }

  ghost function EncodeValue(v: Value): (b: Bytes)
    ensures b != [] && b[0] != CHAR_E
    decreases v, 1
  {
    match v
    case Int(i) => [CHAR_I] + DecimalInt(i) + [CHAR_E]
    case Str(s) => EncodeString(s)
    case List(items) => [CHAR_L] + EncodeItems(items) + [CHAR_E]
    case Dict(entries) => [CHAR_D] + EncodeEntries(v, SortedKeys(entries.Keys)) + [CHAR_E]
  }

  ghost function EncodeItems(items: seq<Value>): Bytes
    decreases items, 0
  {
    if items == [] then [] else EncodeValue(items[0]) + EncodeItems(items[1..])
  }

  ghost function EncodeEntries(v: Value, keys: seq<Bytes>): Bytes
    requires v.Dict? && forall k | k in keys :: k in v.entries
    decreases v, 0, |keys|
  {
    if keys == [] then []
    else EncodeString(keys[0]) + EncodeValue(v.entries[keys[0]]) + EncodeEntries(v, keys[1..])
  }

  // ----- Decoding inverts encoding -----

  lemma Concat4(a: Bytes, b: Bytes, c: Bytes, d: Bytes)
    ensures a + b + c + d == a + (b + (c + d))
    ensures (a + b + c) + d == a + b + (c + d)
  {
  }

  lemma DictLayout(v: Value, t: Bytes)
    requires v.Dict?
    ensures var data := EncodeValue(v) + t;
            && |data| > 1 && data[0] == CHAR_D
            && data[1..] == EncodeEntries(v, SortedKeys(v.entries.Keys)) + ([CHAR_E] + t)
            && |EncodeValue(v)| == |EncodeEntries(v, SortedKeys(v.entries.Keys))| + 2
  {
    var body := EncodeEntries(v, SortedKeys(v.entries.Keys));
    assert EncodeValue(v) == [CHAR_D] + body + [CHAR_E];
    hide *;
    Concat4([CHAR_D], body, [CHAR_E], t);
  }

  lemma NoEntries(v: Value, t: Bytes)
    requires v.Dict?
    ensures EncodeEntries(v, []) == [] && EncodeEntries(v, []) + t == t
  {
  }

  lemma EntriesLayout(v: Value, keys: seq<Bytes>, t: Bytes)
    requires v.Dict? && keys != [] && forall k | k in keys :: k in v.entries
    ensures EncodeEntries(v, keys) + t
            == EncodeString(keys[0]) + (EncodeValue(v.entries[keys[0]]) + (EncodeEntries(v, keys[1..]) + t))
    ensures |EncodeEntries(v, keys)|
            == |EncodeString(keys[0])| + |EncodeValue(v.entries[keys[0]])| + |EncodeEntries(v, keys[1..])|
  {
    Concat4(EncodeString(keys[0]), EncodeValue(v.entries[keys[0]]), EncodeEntries(v, keys[1..]), t);
  }

  lemma StringRoundTrip(scan: Scan, s: Bytes, t: Bytes)
    ensures Decode(scan, EncodeString(s) + t) == Ok((Str(s), |EncodeString(s)|))
  {
    var data := EncodeString(s) + t;
    var digits := Decimal(|s|);
    var colon := |digits|;
    assert data[..colon] == digits;
    assert data[colon] == CHAR_COLON;
    forall k | 0 <= k < colon ensures data[k] != CHAR_COLON {
      assert data[k] == digits[k] && IsDigit(digits[k]);
    }
    IndexByteAt(data, CHAR_COLON, colon);
    assert data[colon + 1..colon + 1 + |s|] == s;
    assert IsDigit(data[..colon][0]);
  }

  lemma IntRoundTrip(scan: Scan, i: int, t: Bytes)
    requires ReadsDecimals(scan) && Int64(i)
    ensures Decode(scan, EncodeValue(Int(i)) + t) == Ok((Int(i), |EncodeValue(Int(i))|))
  {
    var digits := DecimalInt(i);
    var data := EncodeValue(Int(i)) + t;
    var end := 1 + |digits|;
    assert data[1..end] == digits && data[end] == CHAR_E;
    forall k | 0 <= k < end ensures data[k] != CHAR_E {
      assert k > 0 ==> data[k] == digits[k - 1];
      assert k > 0 ==> digits[k - 1] == CHAR_MINUS || IsDigit(digits[k - 1]);
    }
    IndexByteAt(data, CHAR_E, end);
  }

  /** Decoding an encoded value followed by anything gives that value and consumes its encoding exactly. */
  lemma {:induction false} RoundTrip(scan: Scan, v: Value, t: Bytes)
    requires ReadsDecimals(scan) && Encodable(v)
    ensures Decode(scan, EncodeValue(v) + t) == Ok((v, |EncodeValue(v)|))
    decreases v, 1
  {
    var data := EncodeValue(v) + t;
    match v
    case Int(i) => IntRoundTrip(scan, i, t);
    case Str(s) => StringRoundTrip(scan, s, t);
    case List(items) =>
      assert data[1..] == EncodeItems(items) + ([CHAR_E] + t);
      ItemsRoundTrip(scan, items, data, 1, t, []);
      assert [] + items == items;
    case Dict(entries) =>
      DictRoundTrip(scan, v, t);
  }

  lemma {:induction false} DictRoundTrip(scan: Scan, v: Value, t: Bytes)
    requires ReadsDecimals(scan) && Encodable(v) && v.Dict?
    ensures Decode(scan, EncodeValue(v) + t) == Ok((v, |EncodeValue(v)|))
    decreases v, 0
  {
    hide DecodeEntries, Encodable, EncodeValue, EncodeEntries, SortedKeys;
    var data := EncodeValue(v) + t;
    var keys := SortedKeys(v.entries.Keys);
    DictLayout(v, t);
    EntriesRoundTrip(scan, v, keys, data, 1, t, map[]);
    assert map[] + Restrict(v.entries, keys) == v.entries;
  }

  lemma {:induction false} ItemsRoundTrip(scan: Scan, items: seq<Value>, data: Bytes, pos: nat, t: Bytes,
                                          done: seq<Value>)
    requires ReadsDecimals(scan) && (forall x | x in items :: Encodable(x))
    requires 1 <= pos <= |data| && data[pos..] == EncodeItems(items) + ([CHAR_E] + t)
    ensures DecodeItems(scan, data, pos, done) == Ok((List(done + items), pos + |EncodeItems(items)| + 1))
    decreases items, 0
  {
    hide Decode, EncodeValue;
    if items == [] {
      assert data[pos] == data[pos..][0];
      assert done + items == done;
    } else {
      var e, tail := EncodeValue(items[0]), EncodeItems(items[1..]) + ([CHAR_E] + t);
      RoundTrip(scan, items[0], tail);
      assert data[pos..] == e + tail;
      assert data[pos] == data[pos..][0] == e[0];
      assert data[pos + |e|..] == data[pos..][|e|..] == tail;
      ItemsRoundTrip(scan, items[1..], data, pos + |e|, t, done + [items[0]]);
      assert (done + [items[0]]) + items[1..] == done + items;
    }
  }

  ghost function Restrict(entries: map<Bytes, Value>, keys: seq<Bytes>): map<Bytes, Value>
    requires forall k | k in keys :: k in entries
  {
    map k | k in keys :: entries[k]
  }

  lemma RestrictNothing(entries: map<Bytes, Value>, done: map<Bytes, Value>)
    ensures done + Restrict(entries, []) == done
  {
  }

  lemma RestrictStep(entries: map<Bytes, Value>, keys: seq<Bytes>, done: map<Bytes, Value>)
    requires keys != [] && forall k | k in keys :: k in entries
    ensures done[keys[0] := entries[keys[0]]] + Restrict(entries, keys[1..]) == done + Restrict(entries, keys)
  {
  }

  lemma EntryRoundTrip(scan: Scan, data: Bytes, pos: nat, k: Bytes, x: Value, tail: Bytes)
    requires 1 <= pos <= |data| && data[pos..] == EncodeString(k) + (EncodeValue(x) + tail)
    requires Decode(scan, EncodeValue(x) + tail) == Ok((x, |EncodeValue(x)|))
    ensures pos + |EncodeString(k)| + |EncodeValue(x)| <= |data|
    ensures data[pos] != CHAR_E
    ensures DecodeEntry(scan, data, pos) == Ok((k, x, pos + |EncodeString(k)| + |EncodeValue(x)|))
    ensures data[pos + |EncodeString(k)| + |EncodeValue(x)|..] == tail
  {
    hide Decode, EncodeValue;
    var e := EncodeString(k);
    StringRoundTrip(scan, k, EncodeValue(x) + tail);
    assert data[pos + |e|..] == data[pos..][|e|..] == EncodeValue(x) + tail;
    assert data[pos + |e| + |EncodeValue(x)|..] == data[pos + |e|..][|EncodeValue(x)|..] == tail;
    assert data[pos] == data[pos..][0] == Decimal(|k|)[0];
    assert IsDigit(Decimal(|k|)[0]);
  }

  lemma EntriesStep(scan: Scan, v: Value, keys: seq<Bytes>, data: Bytes, pos: nat, t: Bytes,
                    done: map<Bytes, Value>) returns (next: nat)
    requires v.Dict? && keys != [] && forall k | k in keys :: k in v.entries
    requires 1 <= pos <= |data| && data[pos..] == EncodeEntries(v, keys) + t
    requires var x := v.entries[keys[0]]; var tail := EncodeEntries(v, keys[1..]) + t;
             Decode(scan, EncodeValue(x) + tail) == Ok((x, |EncodeValue(x)|))
    ensures 1 <= next <= |data| && data[next..] == EncodeEntries(v, keys[1..]) + t
    ensures next + |EncodeEntries(v, keys[1..])| == pos + |EncodeEntries(v, keys)|
    ensures DecodeEntries(scan, data, pos, done)
            == DecodeEntries(scan, data, next, done[keys[0] := v.entries[keys[0]]])
  {
    hide Decode, EncodeValue, DecodeEntry, EncodeString, EncodeEntries;
    var k, x := keys[0], v.entries[keys[0]];
    EntriesLayout(v, keys, t);
    EntryRoundTrip(scan, data, pos, k, x, EncodeEntries(v, keys[1..]) + t);
    next := pos + |EncodeString(k)| + |EncodeValue(x)|;
  }

  lemma DictEnds(scan: Scan, data: Bytes, pos: nat, done: map<Bytes, Value>, t: Bytes)
    requires 1 <= pos <= |data| && data[pos..] == [101] + t
    ensures DecodeEntries(scan, data, pos, done) == Ok((Dict(done), |data| - |t|))
  {
    hide Decode;
    assert data[pos] == data[pos..][0];
  }

  lemma {:induction false} EntriesRoundTrip(scan: Scan, v: Value, keys: seq<Bytes>, data: Bytes, pos: nat, t: Bytes,
                                            done: map<Bytes, Value>)
    requires ReadsDecimals(scan) && Encodable(v) && v.Dict?
    requires forall k | k in keys :: k in v.entries
    requires 1 <= pos <= |data| && data[pos..] == EncodeEntries(v, keys) + ([CHAR_E] + t)
    ensures DecodeEntries(scan, data, pos, done)
            == Ok((Dict(done + Restrict(v.entries, keys)), pos + |EncodeEntries(v, keys)| + 1))
    decreases v, 0, |keys|
  {
    hide Decode, DecodeEntries, EncodeValue, Restrict, EncodeEntries, EncodeString;
    if keys == [] {
      NoEntries(v, [CHAR_E] + t);
      DictEnds(scan, data, pos, done, t);
      RestrictNothing(v.entries, done);
    } else {
      var x := v.entries[keys[0]];
      RoundTrip(scan, x, EncodeEntries(v, keys[1..]) + ([CHAR_E] + t));
      var next := EntriesStep(scan, v, keys, data, pos, [CHAR_E] + t, done);
      EntriesRoundTrip(scan, v, keys[1..], data, next, t, done[keys[0] := x]);
      RestrictStep(v.entries, keys, done);
    }
  }

  lemma AfterKey(scan: Scan, data: Bytes, pos: nat, done: map<Bytes, Value>, k: Bytes, x: Value, tail: Bytes)
    returns (next: nat)
    requires ReadsDecimals(scan) && Encodable(x)
    requires 1 <= pos <= |data| && data[pos..] == EncodeString(k) + (EncodeValue(x) + tail)
    ensures next == pos + |EncodeString(k)| + |EncodeValue(x)| <= |data| && data[next..] == tail
    ensures DecodeEntries(scan, data, pos, done) == DecodeEntries(scan, data, next, done[k := x])
  {
    hide Decode, EncodeValue, DecodeEntry, EncodeString;
    RoundTrip(scan, x, tail);
    EntryRoundTrip(scan, data, pos, k, x, tail);
    next := pos + |EncodeString(k)| + |EncodeValue(x)|;
  }

  /** Of a key that occurs twice the last value counts. */
  lemma LastKeyWins(scan: Scan, k: Bytes, v: Value, w: Value, t: Bytes)
    requires ReadsDecimals(scan) && Encodable(v) && Encodable(w)
    ensures var last := EncodeString(k) + (EncodeValue(w) + ([101] + t));
            var data := [100] + (EncodeString(k) + (EncodeValue(v) + last));
            Decode(scan, data) == Ok((Dict(map[k := w]), |data| - |t|))
  {
    hide EncodeValue, EncodeString, DecodeEntries, Encodable;
    var last := EncodeString(k) + (EncodeValue(w) + ([101] + t));
    var data := [100] + (EncodeString(k) + (EncodeValue(v) + last));
    assert data[1..] == EncodeString(k) + (EncodeValue(v) + last);
    var next := AfterKey(scan, data, 1, map[], k, v, last);
    next := AfterKey(scan, data, next, map[k := v], k, w, [101] + t);
    assert map[k := v][k := w] == map[k := w];
    DictEnds(scan, data, next, map[k := w], t);
  }

  /** What a receiver of an encoded value followed by raw bytes relies on: the scanner finds where the raw
      bytes begin. */
  lemma ScannerFindsEnd(scan: Scan, v: Value, t: Bytes)
    requires ReadsDecimals(scan) && Encodable(v)
    ensures Scanned(EncodeValue(v) + t) == Ok(|EncodeValue(v)|)
  {
    RoundTrip(scan, v, t);
    ScannerAgrees(scan, EncodeValue(v) + t);
  }

  // ----- What is accepted, without reference to how it is found -----

  /** A string is decoded exactly from digits, a colon and as many bytes as the digits say. */
  lemma StringAcceptedIff(scan: Scan, data: Bytes, s: Bytes, n: nat)
    ensures Decode(scan, data) == Ok((Str(s), n))
            <==> exists colon: nat :: StringAt(data, colon, s, n)
  {
    if Decode(scan, data) == Ok((Str(s), n)) {
      hide DecodeItems, DecodeEntries;
      NotAContainer(scan, data);
      var colon := IndexByte(data, CHAR_COLON);
      assert StringAt(data, colon, s, n);
    }
    if colon: nat :| StringAt(data, colon, s, n) {
      forall k | 0 <= k < colon ensures data[k] != CHAR_COLON {
        assert data[..colon][k] == data[k];
      }
      IndexByteAt(data, CHAR_COLON, colon);
      assert data[..colon][0] == data[0];
    }
  }

  ghost predicate StringAt(data: Bytes, colon: nat, s: Bytes, n: nat) {
    && 0 < colon < |data| && AllDigits(data[..colon]) && data[colon] == CHAR_COLON
    && n == colon + 1 + DigitsValue(data[..colon]) && n <= |data| && s == data[colon + 1..n]
  }

  lemma NotAContainer(scan: Scan, data: Bytes)
    requires Decode(scan, data).Ok? && Decode(scan, data).value.0.Str?
    ensures data != [] && IsDigit(data[0])
  {
    if data[0] == CHAR_L {
      ItemsGiveList(scan, data, 1, []);
    } else if data[0] == CHAR_D {
      EntriesGiveDict(scan, data, 1, map[]);
    }
  }

  lemma {:induction false} ItemsGiveList(scan: Scan, data: Bytes, pos: nat, items: seq<Value>)
    requires 1 <= pos <= |data| && DecodeItems(scan, data, pos, items).Ok?
    ensures DecodeItems(scan, data, pos, items).value.0.List?
    decreases |data| - pos
  {
    hide Decode;
    if data[pos] != CHAR_E {
      var (item, k) := Decode(scan, data[pos..]).value;
      ItemsGiveList(scan, data, pos + k, items + [item]);
    }
  }

  lemma {:induction false} EntriesGiveDict(scan: Scan, data: Bytes, pos: nat, entries: map<Bytes, Value>)
    requires 1 <= pos <= |data| && DecodeEntries(scan, data, pos, entries).Ok?
    ensures DecodeEntries(scan, data, pos, entries).value.0.Dict?
    decreases |data| - pos
  {
    hide Decode, DecodeEntry;
    if data[pos] != CHAR_E {
      var (key, value, next) := DecodeEntry(scan, data, pos).value;
      EntriesGiveDict(scan, data, next, entries[key := value]);
    }
  }

  /** An integer is decoded exactly from i, text that Sscanf reads and that has no e, and e. */
  lemma IntAcceptedIff(scan: Scan, data: Bytes, v: int, n: nat)
    ensures Decode(scan, data) == Ok((Int(v), n))
            <==> 2 <= n <= |data| && data[0] == 105 && data[n - 1] == 101
                 && (forall k :: 1 <= k < n - 1 ==> data[k] != 101) && scan(data[1..n - 1]) == Some(v)
  {
    if Decode(scan, data) == Ok((Int(v), n)) { IntDecoded(scan, data, v, n); }
    if 2 <= n <= |data| && data[0] == 105 && data[n - 1] == 101 && forall k :: 1 <= k < n - 1 ==> data[k] != 101 {
      hide DecodeItems, DecodeEntries, DigitsValue;
      IndexByteAt(data, CHAR_E, n - 1);
    }
  }

  lemma IntStartsWithI(scan: Scan, data: Bytes)
    requires Decode(scan, data).Ok? && Decode(scan, data).value.0.Int?
    ensures data != [] && data[0] == 105
  {
    if data[0] == CHAR_L {
      ItemsGiveList(scan, data, 1, []);
    } else if data[0] == CHAR_D {
      EntriesGiveDict(scan, data, 1, map[]);
    }
  }

  lemma IntDecoded(scan: Scan, data: Bytes, v: int, n: nat)
    requires Decode(scan, data) == Ok((Int(v), n))
    ensures 2 <= n <= |data| && data[0] == 105 && data[n - 1] == 101
    ensures (forall k :: 1 <= k < n - 1 ==> data[k] != 101) && scan(data[1..n - 1]) == Some(v)
  {
    hide DecodeItems, DecodeEntries, DigitsValue;
    IntStartsWithI(scan, data);
    var end := IndexByte(data, CHAR_E);
    hide IndexByte;
    forall k | 1 <= k < n - 1 ensures data[k] != 101 {
      assert data[k] == data[..end][k];
    }
  }

  /** Nothing but i, l, d and digits starts a value. */
  lemma OtherTokens(scan: Scan, data: Bytes)
    requires data == [] || (data[0] != 105 && data[0] != 108 && data[0] != 100 && !(48 <= data[0] <= 57))
    ensures Decode(scan, data) == Err(if data == [] then Empty else UnexpectedToken)
  {
  }

  // ----- The bytes of canonical encodings -----

  lemma EncodedBytes()
    ensures DecimalInt(0) == [48] && DecimalInt(-42) == [45, 52, 50]
    ensures EncodeValue(Int(7)) == [105, 55, 101]
    ensures EncodeString([97, 98]) == [50, 58, 97, 98]
    ensures EncodeValue(List([Int(1), Int(2)])) == [108, 105, 49, 101, 105, 50, 101, 101]
  {
    assert Decimal(4) == [52];
    assert Decimal(42) == [52, 50];
    var v := [Int(1), Int(2)];
    assert v[1..] == [Int(2)] && v[1..][1..] == [];
    assert EncodeItems(v[1..]) == EncodeValue(Int(2)) + EncodeItems([]);
  }
}
