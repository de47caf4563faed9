/** Reading a torrent's info dictionary out of its bencoded form. */
module InfoDict {
  import opened Bytes
  import opened Bencode
  import opened BencodeLaws

  const HASH_SIZE := 20

  datatype File = File(length: int, path: seq<Bytes>)

  datatype Info = Info(name: Bytes, isPrivate: bool, pieceLength: int, hashes: seq<Bytes>, length: int, files: seq<File>)

  datatype InfoError = Undecodable(error: Error) | NotADict | NoPieceHashes
  datatype InfoResult = Parsed(info: Info) | Invalid(error: InfoError)

  function Ascii(s: string): (b: Bytes)
    ensures |b| == |s|
  {
    seq(|s|, i requires 0 <= i < |s| => s[i] as int % 256)
  }

  type Entries = map<Bytes, Value>

  // ----- Typed lookups: None for a missing key and for a value of another type -----

  function IntAt(e: Entries, key: string): Option<int> {
    if Ascii(key) in e && e[Ascii(key)].Int? then Some(e[Ascii(key)].i) else None
  }

  function StrAt(e: Entries, key: string): Option<Bytes> {
    if Ascii(key) in e && e[Ascii(key)].Str? then Some(e[Ascii(key)].s) else None
  }

  function ListAt(e: Entries, key: string): Option<seq<Value>> {
    if Ascii(key) in e && e[Ascii(key)].List? then Some(e[Ascii(key)].items) else None
  }

  function DictAt(e: Entries, key: string): Option<Entries> {
    if Ascii(key) in e && e[Ascii(key)].Dict? then Some(e[Ascii(key)].entries) else None
  }

  function Default<T>(o: Option<T>, d: T): T {
    if o.Some? then o.value else d
  }

  // ----- What the dictionary says -----

  /** The string cut into hashes; a last part of fewer than 20 bytes is dropped. */
  function Chop(s: Bytes): seq<Bytes> {
    if |s| < HASH_SIZE then [] else [s[..HASH_SIZE]] + Chop(s[HASH_SIZE..])
  }

  function Strings(parts: seq<Value>): seq<Bytes> {
    if parts == [] then []
    else Strings(parts[..|parts| - 1]) + if parts[|parts| - 1].Str? then [parts[|parts| - 1].s] else []
  }

  function ReadFile(e: Entries): File {
    File(Default(IntAt(e, "length"), 0), Strings(Default(ListAt(e, "path"), [])))
  }

  function ReadFiles(items: seq<Value>): seq<File> {
    if items == [] then []
    else
      var last := items[|items| - 1];
      ReadFiles(items[..|items| - 1]) + if last.Dict? then [ReadFile(last.entries)] else []
  }

  function TotalLength(files: seq<File>): int {
    if files == [] then 0 else TotalLength(files[..|files| - 1]) + files[|files| - 1].length
  }

  function ReadInfo(e: Entries): Info {
    var length := IntAt(e, "length");
    var files := if length.Some? then [] else ReadFiles(Default(ListAt(e, "files"), []));
    Info(Default(StrAt(e, "name"), []),
         IntAt(e, "private") == Some(1),
         Default(IntAt(e, "piece length"), 0),
         Chop(Default(StrAt(e, "pieces"), [])),
         if length.Some? then length.value else TotalLength(files),
         files)
  }

  function ParseInfo(scan: Scan, data: Bytes): InfoResult {
    match Decode(scan, data)
    case Err(e) => Invalid(Undecodable(e))
    case Ok((v, _)) =>
      if !v.Dict? then Invalid(NotADict)
      else
        var info := ReadInfo(v.entries);
        if info.hashes == [] then Invalid(NoPieceHashes) else Parsed(info)
  }

  // ----- decodeInfoDict with its loops -----

  method ReadHashes(pieces: Bytes) returns (hashes: seq<Bytes>)
    ensures hashes == Chop(pieces)
  {
    hashes := [];
    var i := 0;
    while i + HASH_SIZE <= |pieces|
      invariant 0 <= i <= |pieces|
      invariant hashes + Chop(pieces[i..]) == Chop(pieces)
    {
      assert pieces[i..][..HASH_SIZE] == pieces[i..i + HASH_SIZE];
      assert pieces[i..][HASH_SIZE..] == pieces[i + HASH_SIZE..];
      assert hashes + ([pieces[i..i + HASH_SIZE]] + Chop(pieces[i + HASH_SIZE..]))
             == (hashes + [pieces[i..i + HASH_SIZE]]) + Chop(pieces[i + HASH_SIZE..]);
      hashes := hashes + [pieces[i..i + HASH_SIZE]];
      i := i + HASH_SIZE;
    }
  }

  method ReadPath(parts: seq<Value>) returns (path: seq<Bytes>)
    ensures path == Strings(parts)
  {
    path := [];
    for i := 0 to |parts|
      invariant path == Strings(parts[..i])
    {
      assert parts[..i + 1][..i] == parts[..i];
      if parts[i].Str? { path := path + [parts[i].s]; }
    }
    assert parts[..|parts|] == parts;
  }

  method ReadFileList(items: seq<Value>) returns (files: seq<File>, length: int)
    ensures files == ReadFiles(items) && length == TotalLength(files)
  {
    hide IntAt, ListAt, Strings;
    files, length := [], 0;
    for i := 0 to |items|
      invariant files == ReadFiles(items[..i]) && length == TotalLength(files)
    {
      assert items[..i + 1][..i] == items[..i];
      if !items[i].Dict? {
        continue;
      }
      var fm := items[i].entries;
      var size := Default(IntAt(fm, "length"), 0);
      var path := ReadPath(Default(ListAt(fm, "path"), []));
      assert (files + [File(size, path)])[..|files|] == files;
      length := length + size;
      files := files + [File(size, path)];
    }
    assert items[..|items|] == items;
  }

  method DecodeInfoDict(scan: Scan, data: Bytes) returns (r: InfoResult)
    ensures r == ParseInfo(scan, data)
  {
    hide Decode, IntAt, StrAt, ListAt, Chop, ReadFiles, TotalLength;
    var v := DecodeValue(scan, data);
    if v.Err? {
      return Invalid(Undecodable(v.error));
    }
    if !v.value.0.Dict? {
      return Invalid(NotADict);
    }
    var raw := v.value.0.entries;
    var hashes := ReadHashes(Default(StrAt(raw, "pieces"), []));
    var files, length := [], Default(IntAt(raw, "length"), 0);
    if IntAt(raw, "length").None? {
      files, length := ReadFileList(Default(ListAt(raw, "files"), []));
    }
    if |hashes| == 0 {
      return Invalid(NoPieceHashes);
    }
    r := Parsed(Info(Default(StrAt(raw, "name"), []), IntAt(raw, "private") == Some(1),
                     Default(IntAt(raw, "piece length"), 0), hashes, length, files));
  }

  // ----- Reading what BEP 3 says a torrent writes -----

  function Join(hashes: seq<Bytes>): Bytes {
    if hashes == [] then [] else hashes[0] + Join(hashes[1..])
  }

  function PathValue(path: seq<Bytes>): seq<Value> {
    seq(|path|, i requires 0 <= i < |path| => Str(path[i]))
  }

  function FileValue(f: File): Value {
    Dict(map[Ascii("length") := Int(f.length), Ascii("path") := List(PathValue(f.path))])
  }

  function FileValues(files: seq<File>): seq<Value> {
    seq(|files|, i requires 0 <= i < |files| => FileValue(files[i]))
  }

  /** The info dictionary of a torrent; one with files has the files entry, one without has the length. */
  function InfoValue(info: Info): Value {
    Dict(map[Ascii("name") := Str(info.name), Ascii("piece length") := Int(info.pieceLength),
             Ascii("pieces") := Str(Join(info.hashes)),
             Ascii("private") := Int(if info.isPrivate then 1 else 0),
             if info.files == [] then Ascii("length") else Ascii("files") :=
               if info.files == [] then Int(info.length) else List(FileValues(info.files))])
  }

  ghost predicate Describable(info: Info) {
    && info.hashes != [] && (forall h | h in info.hashes :: |h| == 20)
    && Int64(info.pieceLength) && Int64(info.length)
    && (forall f | f in info.files :: Int64(f.length))
    && (info.files != [] ==> info.length == TotalLength(info.files))
  }

  lemma {:induction false} ChopJoin(hashes: seq<Bytes>)
    requires forall h | h in hashes :: |h| == HASH_SIZE
    ensures Chop(Join(hashes)) == hashes
  {
    if hashes != [] {
      ChopJoin(hashes[1..]);
      var s := Join(hashes);
      assert s[..HASH_SIZE] == hashes[0] && s[HASH_SIZE..] == Join(hashes[1..]);
    }
  }

  lemma {:induction false} StringsOfPath(path: seq<Bytes>)
    ensures Strings(PathValue(path)) == path
  {
    if path != [] {
      var n := |path| - 1;
      StringsOfPath(path[..n]);
      assert PathValue(path)[..n] == PathValue(path[..n]);
    }
  }

  lemma FileBack(f: File)
    ensures FileValue(f).Dict? && ReadFile(FileValue(f).entries) == f
  {
    StringsOfPath(f.path);
    assert |Ascii("length")| != |Ascii("path")|;
  }

  lemma {:induction false} FilesBack(files: seq<File>)
    ensures ReadFiles(FileValues(files)) == files
  {
    hide FileValue, ReadFile;
    if files != [] {
      var n := |files| - 1;
      FilesBack(files[..n]);
      assert FileValues(files)[..n] == FileValues(files[..n]);
      FileBack(files[n]);
    }
  }

  lemma FileEncodable(f: File)
    requires Int64(f.length)
    ensures Encodable(FileValue(f))
  {
    hide Ascii;
    forall i | 0 <= i < |f.path| ensures Encodable(PathValue(f.path)[i]) {
    }
  }

  lemma ListEncodable(files: seq<File>)
    requires forall f | f in files :: Int64(f.length)
    ensures Encodable(List(FileValues(files)))
  {
    hide FileValue;
    forall i | 0 <= i < |files| ensures Encodable(FileValues(files)[i]) {
      FileEncodable(files[i]);
    }
  }

  lemma InfoEncodable(info: Info)
    requires Describable(info)
    ensures Encodable(InfoValue(info))
  {
    hide Ascii, FileValues, Join;
    ListEncodable(info.files);
  }

  /** Each key of the info dictionary leads to its own entry. */
  lemma Lookups(info: Info)
    ensures var e := InfoValue(info).entries;
            && StrAt(e, "name") == Some(info.name) && StrAt(e, "pieces") == Some(Join(info.hashes))
            && IntAt(e, "piece length") == Some(info.pieceLength)
            && IntAt(e, "private") == Some(if info.isPrivate then 1 else 0)
            && IntAt(e, "length") == (if info.files == [] then Some(info.length) else None)
            && (info.files != [] ==> ListAt(e, "files") == Some(FileValues(info.files)))
  {
    hide FileValues, Join;
    SameSizeKeysDiffer();
    hide Ascii;
  }

  lemma SameSizeKeysDiffer()
    ensures Ascii("pieces") != Ascii("length")
  {
    assert Ascii("pieces")[0] == 112 && Ascii("length")[0] == 108;
  }

  lemma FieldsBack(info: Info)
    requires Describable(info)
    ensures ReadInfo(InfoValue(info).entries) == info
  {
    hide InfoValue, StrAt, IntAt, ListAt, FileValues, Join, Chop, ReadFiles, TotalLength;
    Lookups(info);
    ChopJoin(info.hashes);
    FilesBack(info.files);
  }

  /** A torrent's info dictionary, encoded as BEP 3 prescribes and followed by anything, parses back to the torrent. */
  lemma InfoRoundTrip(scan: Scan, info: Info, t: Bytes)
    requires ReadsDecimals(scan) && Describable(info)
    ensures ParseInfo(scan, EncodeValue(InfoValue(info)) + t) == Parsed(info)
  {
    hide Decode, EncodeValue, Encodable, ReadInfo, Describable;
    InfoEncodable(info);
    RoundTrip(scan, InfoValue(info), t);
    FieldsBack(info);
    assert info.hashes != [] by { HasHashes(info); }
  }

  lemma HasHashes(info: Info)
    requires Describable(info)
    ensures info.hashes != []
  {
  }

  // ----- Fields that are missing or of another type -----

  /** Entries of a path or file list are read one by one, and those of another type skipped. */
  lemma {:induction false} StringsSplit(a: seq<Value>, b: seq<Value>)
    ensures Strings(a + b) == Strings(a) + Strings(b)
    ensures |a| == 1 ==> Strings(a) == if a[0].Str? then [a[0].s] else []
    decreases |b|
  {
    if |a| == 1 { assert a[..0] == []; }
    if b == [] {
      assert a + b == a;
    } else {
      assert (a + b)[..|a + b| - 1] == a + b[..|b| - 1];
      StringsSplit(a, b[..|b| - 1]);
    }
  }

  lemma {:induction false} FilesSplit(a: seq<Value>, b: seq<Value>)
    ensures ReadFiles(a + b) == ReadFiles(a) + ReadFiles(b)
    ensures |a| == 1 ==> ReadFiles(a) == if a[0].Dict? then [ReadFile(a[0].entries)] else []
    decreases |b|
  {
    hide ReadFile;
    if |a| == 1 { assert a[..0] == []; }
    if b == [] {
      assert a + b == a;
    } else {
      assert (a + b)[..|a + b| - 1] == a + b[..|b| - 1];
      FilesSplit(a, b[..|b| - 1]);
    }
  }

  /** Keys are the bytes of their names. */
  lemma KeyBytes()
    ensures Ascii("length") == [108, 101, 110, 103, 116, 104] && Ascii("path") == [112, 97, 116, 104]
    ensures Ascii("m") == [109] && Ascii("msg_type") == [109, 115, 103, 95, 116, 121, 112, 101]
  {
  }

  /** A torrent is private exactly if its dictionary says private is 1. */
  lemma PrivateIff(e: Entries)
    ensures ReadInfo(e).isPrivate <==> Ascii("private") in e && e[Ascii("private")] == Int(1)
  {
    hide Chop, ReadFiles, TotalLength;
  }

  /** The length entry wins over the files; without either the torrent is empty. */
  lemma LengthWins(e: Entries)
    ensures Ascii("length") in e && e[Ascii("length")].Int? ==>
              ReadInfo(e).length == e[Ascii("length")].i && ReadInfo(e).files == []
    ensures Ascii("length") !in e && Ascii("files") !in e ==> ReadInfo(e).length == 0 && ReadInfo(e).files == []
  {
    hide Chop;
  }

  /** Absent entries read as empty or zero. */
  lemma NothingGiven()
    ensures ReadInfo(map[]) == Info([], false, 0, [], 0, [])
  {
  }

  lemma {:induction false} PartialHash(s: Bytes)
    ensures |Chop(s)| == |s| / 20
    ensures forall i :: 0 <= i < |Chop(s)| ==> Chop(s)[i] == s[20 * i..20 * i + 20]
    decreases |s|
  {
    if |s| >= HASH_SIZE {
      PartialHash(s[HASH_SIZE..]);
      forall i | 0 < i < |Chop(s)| ensures Chop(s)[i] == s[20 * i..20 * i + 20] {
        var rest := s[HASH_SIZE..];
        assert Chop(s)[i] == Chop(rest)[i - 1];
        assert Chop(rest)[i - 1] == rest[20 * (i - 1)..20 * (i - 1) + 20];
      }
    }
  }
}
