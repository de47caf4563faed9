/** Cutting the finished payload into the torrent's files, in the directory that also holds the client's own files. */
module Files {
  import opened Bytes
  import opened Layout

  // ----- The sections of the payload -----

  function PrefixSum(files: seq<FileInfo>, k: nat): (sum: int)
    requires k <= |files|
  {
    if k == 0 then 0 else PrefixSum(files, k - 1) + files[k - 1].length
  }

  predicate NoNegative(files: seq<FileInfo>) {
    forall i :: 0 <= i < |files| ==> files[i].length >= 0
  }

  lemma {:induction false} PrefixSumMonotone(files: seq<FileInfo>, i: nat, j: nat)
    requires NoNegative(files) && i <= j <= |files|
    ensures 0 <= PrefixSum(files, i) <= PrefixSum(files, j)
    decreases j
  {
    if j > i {
      PrefixSumMonotone(files, i, j - 1);
    } else if i > 0 {
      PrefixSumMonotone(files, i - 1, i - 1);
    }
  }

  /** The section of the payload that belongs to file i. */
  function Section(payload: Bytes, files: seq<FileInfo>, i: nat): Bytes
    requires i < |files|
  {
    var (from, to) := (PrefixSum(files, i), PrefixSum(files, i + 1));
    if 0 <= from <= to <= |payload| then payload[from..to] else []
  }

  // ----- Where each file goes -----

  /** Names from the torrent's root directory down. */
  type Path = seq<string>

  /** The client's own files in that directory. */
  const PAYLOAD: Path := [".torrent-client.payload"]
  const STATE: Path := [".torrent-client.state.json"]
  const LOG: Path := [".torrent-client.log"]

  /** unicode.IsSpace. */
  predicate IsSpace(c: char) {
    var n := c as int;
    9 <= n <= 13 || n == 0x20 || n == 0x85 || n == 0xA0 || n == 0x1680 || 0x2000 <= n <= 0x200A || n == 0x2028
    || n == 0x2029 || n == 0x202F || n == 0x205F || n == 0x3000
  }

  /** strings.TrimSpace. */
  function Trim(s: string): string {
    if s == "" then s
    else if IsSpace(s[0]) then Trim(s[1..])
    else if IsSpace(s[|s| - 1]) then Trim(s[..|s| - 1])
    else s
  }

  function Underscored(s: string): (r: string)
    ensures |r| == |s|
    ensures forall i :: 0 <= i < |r| ==> r[i] == if s[i] == '/' || s[i] == '\\' then '_' else s[i]
  {
    seq(|s|, i requires 0 <= i < |s| => if s[i] == '/' || s[i] == '\\' then '_' else s[i])
  }

  function Clean(parts: seq<string>): Path {
    if parts == [] then []
    else
      var p := Trim(parts[|parts| - 1]);
      Clean(parts[..|parts| - 1]) + if p == "" || p == "." || p == ".." then [] else [Underscored(p)]
  }

  method SanitizePathParts(parts: seq<string>) returns (clean: Path)
    ensures clean == Clean(parts)
  {
    clean := [];
    for i := 0 to |parts|
      invariant clean == Clean(parts[..i])
    {
      assert parts[..i + 1][..i] == parts[..i];
      var p := Trim(parts[i]);
      if p == "" || p == "." || p == ".." {
        continue;
      }
      clean := clean + [Underscored(p)];
    }
    assert parts[..|parts|] == parts;
  }

  function Numeral(n: nat): (s: string)
    ensures s != "" && forall i :: 0 <= i < |s| ==> '0' <= s[i] <= '9'
  {
    (if n < 10 then "" else Numeral(n / 10)) + ['0' + (n % 10) as char]
  }

  function Destination(info: FileInfo, idx: nat): Path {
    var parts := Clean(info.path);
    if parts == [] then ["file_" + Numeral(idx) + ".bin"] else parts
  }

  function Destinations(infos: seq<FileInfo>): (dst: seq<Path>)
    ensures |dst| == |infos|
  {
    seq(|infos|, i requires 0 <= i < |infos| => Destination(infos[i], i))
  }

  /** A name that neither leaves its directory nor stays in it. */
  predicate Plain(name: string) {
    name != "" && name != "." && name != ".." && '/' !in name && '\\' !in name
  }

  lemma UnderscoredPlain(s: string)
    requires s != "" && s != "." && s != ".."
    ensures Plain(Underscored(s))
  {
  }

  lemma {:induction false} CleanPlain(parts: seq<string>)
    ensures forall i :: 0 <= i < |Clean(parts)| ==> Plain(Clean(parts)[i])
  {
    if parts != [] {
      CleanPlain(parts[..|parts| - 1]);
      var p := Trim(parts[|parts| - 1]);
      if !(p == "" || p == "." || p == "..") { UnderscoredPlain(p); }
    }
  }

  /** Whatever the torrent says, every file goes below the root directory. */
  lemma DestinationsStayInside(infos: seq<FileInfo>, i: nat)
    requires i < |infos|
    ensures var d := Destinations(infos)[i]; d != [] && forall k :: 0 <= k < |d| ==> Plain(d[k])
  {
    CleanPlain(infos[i].path);
    assert "file_"[0] == 'f';
  }

  // ----- The directory -----

  /** Regular files and directories by path; [] is the root directory. */
  datatype Tree = Tree(files: map<Path, Bytes>, dirs: set<Path>)

  function Parents(p: Path): set<Path> { set k: nat | k < |p| :: p[..k] }

  ghost predicate WellFormed(t: Tree) {
    && [] in t.dirs
    && (forall p | p in t.files :: p !in t.dirs && Parents(p) <= t.dirs)
    && (forall p | p in t.dirs :: Parents(p) <= t.dirs)
  }

  /** os.MkdirAll can make the directories above p. */
  predicate Reachable(t: Tree, p: Path) {
    forall k: nat | k < |p| :: p[..k] !in t.files
  }

  predicate Enterable(t: Tree, p: Path) { Reachable(t, p) && p !in t.dirs }

  function Cut(data: Bytes, offset: nat, len: nat): Bytes {
    var lo := if offset <= |data| then offset else |data|;
    var hi := if offset + len <= |data| then offset + len else |data|;
    data[lo..hi]
  }

  /** The open of p for writing, which empties the file. */
  function Opened(t: Tree, p: Path): Tree {
    Tree(t.files[p := []], t.dirs + Parents(p))
  }

  /** One file: open it, then copy its section from the payload file as that is after the open. */
  function CopyIn(t: Tree, p: Path, offset: nat, len: nat): Tree
    requires PAYLOAD in t.files
  {
    var u := Opened(t, p);
    u.(files := u.files[p := Cut(u.files[PAYLOAD], offset, len)])
  }

  predicate Copied(t: Tree, p: Path, offset: nat, len: nat)
    requires PAYLOAD in t.files
  {
    len == 0 || offset + len <= |Opened(t, p).files[PAYLOAD]|
  }

  datatype MaterializeResult =
    | Written
    | NoPayload
    | NegativeLength(index: nat)
    | Blocked(index: nat)
    | ShortPayload(index: nat)

  /** The files from number i on, to the destinations dst. */
  function Write(t: Tree, infos: seq<FileInfo>, dst: seq<Path>, i: nat, offset: nat): (Tree, MaterializeResult)
    requires PAYLOAD in t.files && i <= |infos| == |dst|
    decreases |infos| - i
  {
    if i == |infos| then (t, Written)
    else if infos[i].length < 0 then (t, NegativeLength(i))
    else if !Reachable(t, dst[i]) then (t, Blocked(i))
    else if dst[i] in t.dirs then (t.(dirs := t.dirs + Parents(dst[i])), Blocked(i))
    else
      var u := CopyIn(t, dst[i], offset, infos[i].length);
      if Copied(t, dst[i], offset, infos[i].length) then Write(u, infos, dst, i + 1, offset + infos[i].length)
      else (u, ShortPayload(i))
  }

  function Materialized(t: Tree, infos: seq<FileInfo>): (Tree, MaterializeResult) {
    if PAYLOAD !in t.files then (t, NoPayload) else Write(t, infos, Destinations(infos), 0, 0)
  }

  /** os.Remove of the resume file. */
  function Removed(t: Tree, p: Path): Tree {
    if p in t.files then t.(files := t.files - {p})
    else if (exists q | q in t.files :: p < q) || (exists q | q in t.dirs :: p < q) then t
    else t.(dirs := t.dirs - {p})
  }

  /** The end of a download: materialize, remove the resume file, log. line is what the log still receives, nothing
      when it is not open. */
  function Finished(t: Tree, infos: seq<FileInfo>, line: Bytes): (Tree, MaterializeResult) {
    var (u, r) := Materialized(t, infos);
    if r != Written then (u, r)
    else
      var v := Removed(u, STATE);
      (if line != [] && LOG in v.files then v.(files := v.files[LOG := v.files[LOG] + line]) else v, r)
  }

  class Directory {
    var tree: Tree

    method MkdirAll(d: Path) returns (ok: bool)
      modifies this
      ensures ok == forall k: nat | k <= |d| :: d[..k] !in old(tree).files
      ensures tree == if ok then old(tree).(dirs := old(tree).dirs + (set k: nat | k <= |d| :: d[..k])) else old(tree)
    {
      ok := forall k: nat | k <= |d| :: d[..k] !in tree.files;
      if ok { tree := tree.(dirs := tree.dirs + set k: nat | k <= |d| :: d[..k]); }
    }

    /** os.OpenFile with O_CREATE and O_TRUNC, where the directories above p exist. */
    method OpenTruncated(p: Path) returns (ok: bool)
      modifies this
      ensures ok == (p !in old(tree).dirs)
      ensures tree == if ok then old(tree).(files := old(tree).files[p := []]) else old(tree)
    {
      ok := p !in tree.dirs;
      if ok { tree := tree.(files := tree.files[p := []]); }
    }

    /** io.CopyN from a section of the payload file into the open file p. */
    method CopyN(p: Path, offset: nat, len: nat) returns (ok: bool)
      requires PAYLOAD in tree.files
      modifies this
      ensures ok == (len == 0 || offset + len <= |old(tree).files[PAYLOAD]|)
      ensures tree == old(tree).(files := old(tree).files[p := Cut(old(tree).files[PAYLOAD], offset, len)])
    {
      var data := tree.files[PAYLOAD];
      ok := len == 0 || offset + len <= |data|;
      tree := tree.(files := tree.files[p := Cut(data, offset, len)]);
    }

    /** One file: directories, open, copy. */
    method WriteFile(p: Path, offset: nat, len: nat) returns (entered: bool, ok: bool)
      requires PAYLOAD in tree.files && p != []
      modifies this
      ensures entered == Enterable(old(tree), p) && PAYLOAD in tree.files
      ensures ok == (entered && Copied(old(tree), p, offset, len))
      ensures tree == if entered then CopyIn(old(tree), p, offset, len)
                      else if Reachable(old(tree), p) then old(tree).(dirs := old(tree).dirs + Parents(p))
                      else old(tree)
    {
      hide Cut, Parents;
      ParentsOf(p);
      entered, ok := false, false;
      var made := MkdirAll(p[..|p| - 1]);
      if !made {
        return;
      }
      entered := OpenTruncated(p);
      if !entered {
        return;
      }
      ok := CopyN(p, offset, len);
    }

    /** materializeMultiFile. */
    method Materialize(infos: seq<FileInfo>) returns (r: MaterializeResult)
      modifies this
      ensures (tree, r) == Materialized(old(tree), infos)
    {
      hide Clean, CopyIn, Copied, Reachable, Parents;
      if PAYLOAD !in tree.files {
        return NoPayload;
      }
      ghost var dst := Destinations(infos);
      var offset := 0;
      for idx := 0 to |infos|
        invariant PAYLOAD in tree.files && offset >= 0
        invariant Write(old(tree), infos, dst, 0, 0) == Write(tree, infos, dst, idx, offset)
      {
        var f := infos[idx];
        if f.length < 0 {
          return NegativeLength(idx);
        }
        var parts := SanitizePathParts(f.path);
        if |parts| == 0 { parts := ["file_" + Numeral(idx) + ".bin"]; }
        assert parts == dst[idx];
        var entered, ok := WriteFile(parts, offset, f.length);
        if !entered {
          return Blocked(idx);
        }
        if !ok {
          return ShortPayload(idx);
        }
        offset := offset + f.length;
      }
      return Written;
    }

    /** What DownloadTorrentWithOptions does once all pieces of a multi-file torrent are complete. */
    method Finish(infos: seq<FileInfo>, line: Bytes) returns (r: MaterializeResult)
      modifies this
      ensures (tree, r) == Finished(old(tree), infos, line)
    {
      r := Materialize(infos);
      if r != Written {
        return;
      }
      tree := Removed(tree, STATE);
      if line != [] && LOG in tree.files {
        tree := tree.(files := tree.files[LOG := tree.files[LOG] + line]);
      }
    }
  }

  lemma ParentsOf(p: Path)
    requires p != []
    ensures var d := p[..|p| - 1];
            && (set k: nat | k <= |d| :: d[..k]) == Parents(p)
            && forall k: nat | k < |p| :: d[..k] == p[..k]
  {
    var d := p[..|p| - 1];
    forall k: nat | k < |p| ensures d[..k] == p[..k] {
    }
    forall q ensures q in (set k: nat | k <= |d| :: d[..k]) <==> q in Parents(p) {
      if q in Parents(p) {
        var k: nat :| k < |p| && p[..k] == q;
        assert d[..k] == q;
      }
    }
  }
}
