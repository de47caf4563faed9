/** When the files of a torrent come out right: exactly which torrents and directories materialize, and what is in
    the files afterwards. */
module FileLaws {
  import opened Bytes
  import opened Layout
  import opened Files

  // ----- When everything is written -----

  /** File j alone: not negative, nothing in the way, enough payload, and not the payload file unless empty. */
  predicate Ready(t: Tree, infos: seq<FileInfo>, dst: seq<Path>, j: nat)
    requires PAYLOAD in t.files && j < |infos| == |dst|
  {
    && infos[j].length >= 0
    && Enterable(t, dst[j])
    && (infos[j].length > 0 ==> dst[j] != PAYLOAD && PrefixSum(infos, j + 1) <= |t.files[PAYLOAD]|)
  }

  /** Files j and later k together: neither is a directory above the other, and j does not empty k's source. */
  predicate Compatible(infos: seq<FileInfo>, dst: seq<Path>, j: nat, k: nat)
    requires j < k < |infos| == |dst|
  {
    !(dst[j] < dst[k]) && !(dst[k] < dst[j]) && (dst[j] == PAYLOAD ==> infos[k].length <= 0)
  }

  ghost predicate AllFrom(t: Tree, infos: seq<FileInfo>, dst: seq<Path>, i: nat)
    requires PAYLOAD in t.files && i <= |infos| == |dst|
  {
    && (forall j :: i <= j < |infos| ==> Ready(t, infos, dst, j))
    && forall j, k :: i <= j < k < |infos| ==> Compatible(infos, dst, j, k)
  }

  lemma {:induction false} NegativeStops(t: Tree, infos: seq<FileInfo>, dst: seq<Path>, i: nat, offset: nat, j: nat)
    requires PAYLOAD in t.files && i <= j < |infos| == |dst| && infos[j].length < 0
    ensures Write(t, infos, dst, i, offset).1 != Written
    decreases |infos| - i
  {
    hide Reachable, Enterable, Cut, Parents, Copied;
    if i < j && infos[i].length >= 0 {
      NegativeStops(CopyIn(t, dst[i], offset, infos[i].length), infos, dst, i + 1, offset + infos[i].length, j);
    }
  }

  lemma PrefixIsParent(p: Path, q: Path)
    ensures p < q <==> exists k: nat :: k < |q| && q[..k] == p
    ensures p in Parents(q) <==> p < q
  {
    if p < q { assert q[..|p|] == p; }
  }

  /** Opening p bars exactly the paths below and above it. */
  lemma EnterableAfter(t: Tree, p: Path, offset: nat, len: nat, q: Path)
    requires PAYLOAD in t.files && Enterable(t, p)
    ensures Enterable(CopyIn(t, p, offset, len), q) <==> Enterable(t, q) && !(p < q) && !(q < p)
  {
    hide Cut;
    PrefixIsParent(p, q);
    PrefixIsParent(q, p);
    var u := CopyIn(t, p, offset, len);
    assert u.files.Keys == t.files.Keys + {p};
    assert u.dirs == t.dirs + Parents(p);
    hide Parents;
    if Reachable(t, q) && !(p < q) {
      forall k: nat | k < |q| ensures q[..k] !in u.files {
      }
    }
    if Reachable(u, q) {
      forall k: nat | k < |q| ensures q[..k] !in t.files && q[..k] != p {
        assert q[..k] !in u.files;
      }
    }
  }

  lemma PayloadAfter(t: Tree, p: Path, offset: nat, len: nat)
    requires PAYLOAD in t.files
    ensures var u := CopyIn(t, p, offset, len);
            PAYLOAD in u.files && u.files[PAYLOAD] == if p == PAYLOAD then [] else t.files[PAYLOAD]
    ensures Copied(t, p, offset, len) <==> len == 0 || (p != PAYLOAD && offset + len <= |t.files[PAYLOAD]|)
  {
  }

  lemma ReadyAfter(t: Tree, infos: seq<FileInfo>, dst: seq<Path>, i: nat, j: nat)
    requires PAYLOAD in t.files && i < j < |infos| == |dst| && NoNegative(infos) && Ready(t, infos, dst, i)
    ensures PrefixSum(infos, i) >= 0
    ensures var u := CopyIn(t, dst[i], PrefixSum(infos, i), infos[i].length);
            PAYLOAD in u.files && (Ready(u, infos, dst, j) <==> Ready(t, infos, dst, j) && Compatible(infos, dst, i, j))
  {
    hide Enterable, CopyIn, Cut, Parents, Reachable;
    PrefixSumMonotone(infos, 0, i);
    PrefixSumMonotone(infos, 0, j);
    EnterableAfter(t, dst[i], PrefixSum(infos, i), infos[i].length, dst[j]);
    PayloadAfter(t, dst[i], PrefixSum(infos, i), infos[i].length);
  }

  lemma {:induction false} WriteIff(t: Tree, infos: seq<FileInfo>, dst: seq<Path>, i: nat)
    requires PAYLOAD in t.files && i <= |infos| == |dst| && NoNegative(infos)
    ensures PrefixSum(infos, i) >= 0
    ensures Write(t, infos, dst, i, PrefixSum(infos, i)).1 == Written <==> AllFrom(t, infos, dst, i)
    decreases |infos| - i
  {
    hide Reachable, Parents, Cut, CopyIn, Copied, Compatible;
    PrefixSumMonotone(infos, 0, i);
    if i < |infos| {
      var offset, len := PrefixSum(infos, i), infos[i].length;
      PayloadAfter(t, dst[i], offset, len);
      if Ready(t, infos, dst, i) {
        var u := CopyIn(t, dst[i], offset, len);
        WriteIff(u, infos, dst, i + 1);
        forall j | i < j < |infos|
          ensures Ready(u, infos, dst, j) <==> Ready(t, infos, dst, j) && Compatible(infos, dst, i, j)
        {
          ReadyAfter(t, infos, dst, i, j);
        }
        AllFromStep(t, u, infos, dst, i);
      }
    }
  }

  lemma AllFromStep(t: Tree, u: Tree, infos: seq<FileInfo>, dst: seq<Path>, i: nat)
    requires PAYLOAD in t.files && PAYLOAD in u.files && i < |infos| == |dst| && Ready(t, infos, dst, i)
    requires forall j :: i < j < |infos| ==>
               (Ready(u, infos, dst, j) <==> Ready(t, infos, dst, j) && Compatible(infos, dst, i, j))
    ensures AllFrom(u, infos, dst, i + 1) <==> AllFrom(t, infos, dst, i)
  {
    hide Ready, Compatible;
  }

  // ----- The same in terms a caller can check -----

  /** No destination is a directory, lies below a file, or lies below another destination. */
  ghost predicate Unobstructed(t: Tree, dst: seq<Path>) {
    && (forall i :: 0 <= i < |dst| ==> Enterable(t, dst[i]))
    && forall i, j :: 0 <= i < |dst| && 0 <= j < |dst| ==> !(dst[i] < dst[j])
  }

  /** From the first file that goes to the payload's own path on, all files are empty. */
  ghost predicate Spared(infos: seq<FileInfo>, dst: seq<Path>)
    requires |dst| == |infos|
  {
    forall i, j :: 0 <= i <= j < |infos| && dst[i] == PAYLOAD ==> infos[j].length <= 0
  }

  ghost predicate Fitting(t: Tree, infos: seq<FileInfo>)
    requires PAYLOAD in t.files
  {
    && NoNegative(infos) && PrefixSum(infos, |infos|) <= |t.files[PAYLOAD]|
    && Unobstructed(t, Destinations(infos)) && Spared(infos, Destinations(infos))
  }

  lemma {:induction false} SumFits(infos: seq<FileInfo>, size: nat, n: nat)
    requires NoNegative(infos) && n <= |infos|
    requires forall j :: 0 <= j < n && infos[j].length > 0 ==> PrefixSum(infos, j + 1) <= size
    ensures PrefixSum(infos, n) <= size
  {
    if n > 0 { SumFits(infos, size, n - 1); }
  }

  /** Materializing succeeds exactly for non-negative lengths within the payload, unobstructed destinations and a
      payload file that is spared. */
  lemma WrittenIff(t: Tree, infos: seq<FileInfo>)
    requires PAYLOAD in t.files
    ensures Materialized(t, infos).1 == Written <==> Fitting(t, infos)
  {
    var dst := Destinations(infos);
    hide Destinations, Enterable;
    if j :| 0 <= j < |infos| && infos[j].length < 0 {
      NegativeStops(t, infos, dst, 0, 0, j);
    } else {
      WriteIff(t, infos, dst, 0);
      if Fitting(t, infos) {
        forall j | 0 <= j < |infos| ensures Ready(t, infos, dst, j) {
          PrefixSumMonotone(infos, j + 1, |infos|);
        }
      }
      if AllFrom(t, infos, dst, 0) {
        AllFromMeans(t, infos, dst);
      }
    }
  }

  lemma AllFromMeans(t: Tree, infos: seq<FileInfo>, dst: seq<Path>)
    requires PAYLOAD in t.files && |infos| == |dst| && NoNegative(infos) && AllFrom(t, infos, dst, 0)
    ensures PrefixSum(infos, |infos|) <= |t.files[PAYLOAD]| && Unobstructed(t, dst) && Spared(infos, dst)
  {
    hide Enterable;
    forall j | 0 <= j < |infos| && infos[j].length > 0 ensures PrefixSum(infos, j + 1) <= |t.files[PAYLOAD]| {
      assert Ready(t, infos, dst, j);
    }
    SumFits(infos, |t.files[PAYLOAD]|, |infos|);
    forall i | 0 <= i < |dst| ensures Enterable(t, dst[i]) {
      assert Ready(t, infos, dst, i);
    }
    forall i, j | 0 <= i < |dst| && 0 <= j < |dst| ensures !(dst[i] < dst[j]) {
      if i < j { assert Compatible(infos, dst, i, j); } else if j < i { assert Compatible(infos, dst, j, i); }
    }
    forall i, j | 0 <= i <= j < |infos| && dst[i] == PAYLOAD ensures infos[j].length <= 0 {
      assert Ready(t, infos, dst, i);
      if i < j { assert Compatible(infos, dst, i, j); }
    }
  }

  // ----- What the files hold -----

  /** File i is the last one with its destination. */
  ghost predicate LastAt(dst: seq<Path>, i: nat)
    requires i < |dst|
  {
    forall j :: i < j < |dst| ==> dst[j] != dst[i]
  }

  /** The tree holds each destination's last section from number i on, and before for every other path. */
  ghost predicate HoldsSections(before: Tree, after: Tree, payload: Bytes, infos: seq<FileInfo>, dst: seq<Path>, i: nat)
    requires i <= |infos| == |dst|
  {
    && (forall k :: i <= k < |dst| && LastAt(dst, k) ==>
          dst[k] in after.files && after.files[dst[k]] == Section(payload, infos, k))
    && forall p :: p !in dst[i..] ==>
         (p in after.files <==> p in before.files) && (p in before.files ==> after.files[p] == before.files[p])
  }

  lemma CutIsSection(t: Tree, infos: seq<FileInfo>, dst: seq<Path>, payload: Bytes, i: nat)
    requires PAYLOAD in t.files && i < |infos| == |dst| && NoNegative(infos) && Ready(t, infos, dst, i)
    requires PrefixSum(infos, |infos|) <= |payload| && (infos[i].length > 0 ==> t.files[PAYLOAD] == payload)
    ensures PrefixSum(infos, i) >= 0
    ensures var u := CopyIn(t, dst[i], PrefixSum(infos, i), infos[i].length);
            u.files == t.files[dst[i] := Section(payload, infos, i)]
  {
    hide Enterable, Parents;
    PrefixSumMonotone(infos, 0, i);
    PrefixSumMonotone(infos, i, i + 1);
    PrefixSumMonotone(infos, i + 1, |infos|);
    var p, section := dst[i], Section(payload, infos, i);
    assert Cut(Opened(t, p).files[PAYLOAD], PrefixSum(infos, i), infos[i].length) == section;
    assert t.files[p := []][p := section] == t.files[p := section];
  }

  lemma HoldsStep(t: Tree, u: Tree, v: Tree, payload: Bytes, infos: seq<FileInfo>, dst: seq<Path>, i: nat)
    requires i < |infos| == |dst| && HoldsSections(u, v, payload, infos, dst, i + 1)
    requires u.files == t.files[dst[i] := Section(payload, infos, i)]
    ensures HoldsSections(t, v, payload, infos, dst, i)
  {
    hide Section, LastAt;
    assert dst[i..] == [dst[i]] + dst[i + 1..];
    if LastAt(dst, i) { LastIsNotLater(dst, i); }
    forall p | p !in dst[i..]
      ensures (p in v.files <==> p in t.files) && (p in t.files ==> v.files[p] == t.files[p])
    {
      assert p !in dst[i + 1..] && p != dst[i];
    }
  }

  lemma LastIsNotLater(dst: seq<Path>, i: nat)
    requires i < |dst| && LastAt(dst, i)
    ensures dst[i] !in dst[i + 1..]
  {
    var later := dst[i + 1..];
    forall j | 0 <= j < |later| ensures later[j] != dst[i] {
      assert later[j] == dst[i + 1 + j];
    }
  }

  lemma {:induction false} WriteHolds(t: Tree, infos: seq<FileInfo>, dst: seq<Path>, payload: Bytes, i: nat)
    requires PAYLOAD in t.files && i <= |infos| == |dst| && NoNegative(infos) && AllFrom(t, infos, dst, i)
    requires PrefixSum(infos, |infos|) <= |payload|
    requires t.files[PAYLOAD] == payload || forall j :: i <= j < |infos| ==> infos[j].length == 0
    ensures PrefixSum(infos, i) >= 0
    ensures HoldsSections(t, Write(t, infos, dst, i, PrefixSum(infos, i)).0, payload, infos, dst, i)
    decreases |infos| - i
  {
    hide Reachable, Parents, Cut, CopyIn, Copied, Compatible, Section, HoldsSections;
    PrefixSumMonotone(infos, 0, i);
    if i == |infos| {
      NothingToHold(t, payload, infos, dst);
    } else {
      var offset, len := PrefixSum(infos, i), infos[i].length;
      assert Ready(t, infos, dst, i);
      PayloadAfter(t, dst[i], offset, len);
      CutIsSection(t, infos, dst, payload, i);
      var u := CopyIn(t, dst[i], offset, len);
      forall j | i < j < |infos|
        ensures Ready(u, infos, dst, j) <==> Ready(t, infos, dst, j) && Compatible(infos, dst, i, j)
      {
        ReadyAfter(t, infos, dst, i, j);
      }
      AllFromStep(t, u, infos, dst, i);
      if dst[i] == PAYLOAD { RestIsEmpty(infos, dst, i); }
      WriteHolds(u, infos, dst, payload, i + 1);
      HoldsStep(t, u, Write(t, infos, dst, i, offset).0, payload, infos, dst, i);
    }
  }

  lemma NothingToHold(t: Tree, payload: Bytes, infos: seq<FileInfo>, dst: seq<Path>)
    requires |infos| == |dst|
    ensures HoldsSections(t, t, payload, infos, dst, |infos|)
  {
  }

  lemma RestIsEmpty(infos: seq<FileInfo>, dst: seq<Path>, i: nat)
    requires i < |infos| == |dst| && NoNegative(infos) && dst[i] == PAYLOAD
    requires forall j, k :: i <= j < k < |infos| ==> Compatible(infos, dst, j, k)
    ensures forall j :: i < j < |infos| ==> infos[j].length == 0
  {
    forall j | i < j < |infos| ensures infos[j].length == 0 {
      assert Compatible(infos, dst, i, j);
    }
  }

  /** Each destination ends with the section of the last file that goes there, and nothing else changes. */
  lemma LastWriterOwns(t: Tree, infos: seq<FileInfo>)
    requires PAYLOAD in t.files && Materialized(t, infos).1 == Written
    ensures HoldsSections(t, Materialized(t, infos).0, t.files[PAYLOAD], infos, Destinations(infos), 0)
  {
    hide Destinations, Enterable, HoldsSections, Section;
    WrittenIff(t, infos);
    WriteIff(t, infos, Destinations(infos), 0);
    WriteHolds(t, infos, Destinations(infos), t.files[PAYLOAD], 0);
  }

  lemma ParentsNest(p: Path, q: Path)
    requires q in Parents(p)
    ensures Parents(q) <= Parents(p)
  {
    forall r | r in Parents(q) ensures r in Parents(p) {
      PrefixIsParent(r, q);
      PrefixIsParent(q, p);
      PrefixIsParent(r, p);
    }
  }

  lemma DirsKeepTree(t: Tree, p: Path)
    requires WellFormed(t) && Reachable(t, p)
    ensures WellFormed(t.(dirs := t.dirs + Parents(p)))
  {
    var u := t.(dirs := t.dirs + Parents(p));
    forall q | q in u.dirs ensures Parents(q) <= u.dirs && q !in u.files {
      if q in Parents(p) { ParentsNest(p, q); }
    }
  }

  lemma CopyKeepsTree(t: Tree, p: Path, offset: nat, len: nat)
    requires PAYLOAD in t.files && WellFormed(t) && Enterable(t, p)
    ensures WellFormed(CopyIn(t, p, offset, len))
  {
    DirsKeepTree(t, p);
    hide Cut;
    assert p !in Parents(p) by { PrefixIsParent(p, p); }
  }

  /** Materializing leaves a tree: nothing lies below a file, and no path is both file and directory. */
  lemma {:induction false} WriteKeepsTree(t: Tree, infos: seq<FileInfo>, dst: seq<Path>, i: nat, offset: nat)
    requires PAYLOAD in t.files && i <= |infos| == |dst| && WellFormed(t)
    ensures WellFormed(Write(t, infos, dst, i, offset).0)
    decreases |infos| - i
  {
    hide WellFormed, Parents, Cut, CopyIn, Copied, Reachable;
    if i < |infos| && infos[i].length >= 0 && Reachable(t, dst[i]) {
      DirsKeepTree(t, dst[i]);
      if dst[i] !in t.dirs {
        CopyKeepsTree(t, dst[i], offset, infos[i].length);
        PayloadAfter(t, dst[i], offset, infos[i].length);
        if Copied(t, dst[i], offset, infos[i].length) {
          WriteKeepsTree(CopyIn(t, dst[i], offset, infos[i].length), infos, dst, i + 1, offset + infos[i].length);
        }
      }
    }
  }

  // ----- The end of the download -----

  /** Everything was written, and every file still holds its own section. */
  ghost predicate Intact(t: Tree, infos: seq<FileInfo>, line: Bytes)
    requires PAYLOAD in t.files
  {
    var (v, r) := Finished(t, infos, line);
    && r == Written
    && forall i :: 0 <= i < |infos| ==>
         var p := Destinations(infos)[i]; p in v.files && v.files[p] == Section(t.files[PAYLOAD], infos, i)
  }

  /** No file goes to the resume file's path, nor to the log's while that is open. */
  ghost predicate Unreserved(dst: seq<Path>, line: Bytes) {
    forall i :: 0 <= i < |dst| ==> dst[i] != STATE && (line != [] ==> dst[i] != LOG)
  }

  /** Files that share a destination have equal sections. */
  ghost predicate SharedAgree(payload: Bytes, infos: seq<FileInfo>, dst: seq<Path>)
    requires |dst| == |infos|
  {
    forall i, j :: 0 <= i < j < |dst| && dst[i] == dst[j] ==> Section(payload, infos, i) == Section(payload, infos, j)
  }

  lemma LastWriter(dst: seq<Path>, i: nat) returns (j: nat)
    requires i < |dst|
    ensures i <= j < |dst| && dst[j] == dst[i] && LastAt(dst, j)
    decreases |dst| - i
  {
    if k :| i < k < |dst| && dst[k] == dst[i] {
      j := LastWriter(dst, k);
    } else {
      j := i;
    }
  }

  /** After the resume file is gone and the log has its line. */
  lemma FinishedFiles(t: Tree, infos: seq<FileInfo>, line: Bytes)
    requires Materialized(t, infos).1 == Written
    ensures var (u, v) := (Materialized(t, infos).0, Finished(t, infos, line).0);
            && v.files.Keys == u.files.Keys - {STATE}
            && forall p | p in v.files :: v.files[p] == if p == LOG then u.files[p] + line else u.files[p]
  {
    hide Materialized;
    var u := Materialized(t, infos).0;
    assert STATE != LOG by { assert |STATE[0]| != |LOG[0]|; }
    if STATE in u.files { assert (u.files - {STATE}).Keys == u.files.Keys - {STATE}; }
  }

  /** All files come out right exactly when the torrent fits, keeps off the client's own files, and agrees wherever
      files share a destination. */
  lemma IntactIff(t: Tree, infos: seq<FileInfo>, line: Bytes)
    requires PAYLOAD in t.files && (line != [] ==> LOG in t.files)
    ensures Intact(t, infos, line)
            <==> && Fitting(t, infos) && Unreserved(Destinations(infos), line)
                 && SharedAgree(t.files[PAYLOAD], infos, Destinations(infos))
  {
    hide Destinations, Fitting, Section, Finished, Materialized;
    WrittenIff(t, infos);
    FinishedResult(t, infos, line);
    if Materialized(t, infos).1 == Written {
      LastWriterOwns(t, infos);
      FinishedFiles(t, infos, line);
      var u, v, dst := Materialized(t, infos).0, Finished(t, infos, line).0, Destinations(infos);
      forall i | 0 <= i < |infos|
        ensures dst[i] in u.files
        ensures SharedAgree(t.files[PAYLOAD], infos, dst) ==> u.files[dst[i]] == Section(t.files[PAYLOAD], infos, i)
      {
        var j := LastWriter(dst, i);
      }
      if Intact(t, infos, line) {
        IntactMeans(t, infos, line, u, v);
      }
    }
  }

  lemma FinishedResult(t: Tree, infos: seq<FileInfo>, line: Bytes)
    ensures Finished(t, infos, line).1 == Materialized(t, infos).1
  {
  }

  lemma IntactMeans(t: Tree, infos: seq<FileInfo>, line: Bytes, u: Tree, v: Tree)
    requires PAYLOAD in t.files && Intact(t, infos, line) && v == Finished(t, infos, line).0
    requires HoldsSections(t, u, t.files[PAYLOAD], infos, Destinations(infos), 0)
    requires v.files.Keys == u.files.Keys - {STATE}
    requires forall p | p in v.files :: v.files[p] == if p == LOG then u.files[p] + line else u.files[p]
    ensures Unreserved(Destinations(infos), line) && SharedAgree(t.files[PAYLOAD], infos, Destinations(infos))
  {
    hide Destinations, Section, Finished;
    var dst := Destinations(infos);
    forall i | 0 <= i < |dst| ensures dst[i] != STATE && (line != [] ==> dst[i] != LOG) {
      var j := LastWriter(dst, i);
      assert dst[j] in v.files;
      if dst[i] == LOG { assert |v.files[LOG]| == |u.files[LOG]| + |line|; }
    }
  }

  // ----- In order, they are the payload -----

  predicate Distinct(dst: seq<Path>) {
    forall i, j :: 0 <= i < j < |dst| ==> dst[i] != dst[j]
  }

  /** Contents of the destinations, in file order. */
  function Outputs(files: map<Path, Bytes>, dst: seq<Path>, k: nat): Bytes
    requires k <= |dst| && forall i :: 0 <= i < |dst| ==> dst[i] in files
  {
    if k == 0 then [] else Outputs(files, dst, k - 1) + files[dst[k - 1]]
  }

  lemma {:induction false} OutputsPrefix(payload: Bytes, infos: seq<FileInfo>, dst: seq<Path>,
                                         files: map<Path, Bytes>, k: nat)
    requires |dst| == |infos| && k <= |dst|
    requires NoNegative(infos) && PrefixSum(infos, |infos|) <= |payload|
    requires forall i :: 0 <= i < |dst| ==> dst[i] in files && files[dst[i]] == Section(payload, infos, i)
    ensures 0 <= PrefixSum(infos, k) <= |payload|
    ensures Outputs(files, dst, k) == payload[..PrefixSum(infos, k)]
  {
    hide Section;
    PrefixSumMonotone(infos, k, |infos|);
    if k > 0 {
      OutputsPrefix(payload, infos, dst, files, k - 1);
      PrefixSumMonotone(infos, k - 1, k);
      SectionJoins(payload, infos, k - 1);
    }
  }

  lemma SectionJoins(payload: Bytes, infos: seq<FileInfo>, k: nat)
    requires k < |infos| && 0 <= PrefixSum(infos, k) <= PrefixSum(infos, k + 1) <= |payload|
    ensures payload[..PrefixSum(infos, k)] + Section(payload, infos, k) == payload[..PrefixSum(infos, k + 1)]
  {
  }

  /** A torrent that fits, with distinct destinations off the client's own files, leaves the payload cut in order. */
  lemma OutputsJoin(t: Tree, infos: seq<FileInfo>, line: Bytes)
    requires PAYLOAD in t.files && (line != [] ==> LOG in t.files)
    requires Fitting(t, infos) && Distinct(Destinations(infos)) && Unreserved(Destinations(infos), line)
    ensures var (v, r) := Finished(t, infos, line);
            var dst := Destinations(infos);
            && r == Written
            && (forall i :: 0 <= i < |dst| ==> dst[i] in v.files)
            && 0 <= PrefixSum(infos, |infos|) <= |t.files[PAYLOAD]|
            && Outputs(v.files, dst, |dst|) == t.files[PAYLOAD][..PrefixSum(infos, |infos|)]
  {
    hide Destinations, Finished, Section, Unobstructed, Spared;
    assert SharedAgree(t.files[PAYLOAD], infos, Destinations(infos));
    IntactIff(t, infos, line);
    OutputsPrefix(t.files[PAYLOAD], infos, Destinations(infos), Finished(t, infos, line).0.files, |infos|);
  }

  // ----- How path parts become destinations -----

  /** Trimming leaves the part between the spaces at the two ends. */
  lemma {:induction false} TrimExact(s: string) returns (a: nat, b: nat)
    ensures a <= b <= |s| && Trim(s) == s[a..b]
    ensures forall i :: 0 <= i < a || b <= i < |s| ==> IsSpace(s[i])
    ensures a < b ==> !IsSpace(s[a]) && !IsSpace(s[b - 1])
    decreases |s|
  {
    hide IsSpace;
    if s == "" {
      a, b := 0, 0;
    } else if IsSpace(s[0]) {
      a, b := TrimExact(s[1..]);
      assert s[1..][a..b] == s[a + 1..b + 1];
      assert forall i :: 0 < i < |s| ==> s[i] == s[1..][i - 1];
      a, b := a + 1, b + 1;
    } else if IsSpace(s[|s| - 1]) {
      var n := |s| - 1;
      a, b := TrimExact(s[..n]);
      assert s[..n][a..b] == s[a..b];
      assert forall i :: 0 <= i < n ==> s[i] == s[..n][i];
    } else {
      a, b := 0, |s|;
    }
  }

  /** Parts are treated one by one and keep their order. */
  lemma {:induction false} CleanSplit(a: seq<string>, b: seq<string>)
    ensures Clean(a + b) == Clean(a) + Clean(b)
    decreases |b|
  {
    hide Trim;
    if b == [] {
      assert a + b == a;
    } else {
      assert (a + b)[..|a + b| - 1] == a + b[..|b| - 1];
      CleanSplit(a, b[..|b| - 1]);
    }
  }

  lemma CleanOne(part: string)
    ensures Clean([part]) == if Trim(part) == "" || Trim(part) == "." || Trim(part) == ".." then []
                             else [Underscored(Trim(part))]
  {
    hide Trim;
    assert [part][..0] == [] && Clean([]) == [];
  }

  /** A path of ordinary names is the destination as it stands. */
  lemma {:induction false} PlainPathsPassThrough(parts: seq<string>)
    requires forall i :: 0 <= i < |parts| ==> Harmless(parts[i])
    ensures Clean(parts) == parts
  {
    hide Trim, Harmless, Underscored;
    if parts != [] {
      var most, last := parts[..|parts| - 1], parts[|parts| - 1];
      assert parts == most + [last];
      PlainPart(last);
      PlainPathsPassThrough(most);
    }
  }

  lemma PlainPart(part: string)
    requires Harmless(part)
    ensures Trim(part) == part && Underscored(part) == part && part != "" && part != "." && part != ".."
  {
  }

  /** A file without a usable path is named by its number. */
  lemma UnnamedFile(length: int)
    ensures Destination(FileInfo(length, []), 0) == ["file_0.bin"]
    ensures Destination(FileInfo(length, []), 12) == ["file_12.bin"]
  {
    assert Clean([]) == [];
    assert Numeral(0) == "0";
    assert Numeral(1) == "1";
    assert Numeral(12) == "12";
    assert "file_" + "0" + ".bin" == "file_0.bin" && "file_" + "12" + ".bin" == "file_12.bin";
    assert FileInfo(length, []).path == [];
  }

  // ----- When it fails -----

  /** Paths that no file goes to are left alone, also by an attempt that fails. */
  lemma {:induction false} OthersUntouched(t: Tree, infos: seq<FileInfo>, dst: seq<Path>, i: nat, offset: nat, p: Path)
    requires PAYLOAD in t.files && i <= |infos| == |dst| && forall j :: i <= j < |dst| ==> dst[j] != p
    ensures var u := Write(t, infos, dst, i, offset).0;
            (p in u.files <==> p in t.files) && (p in t.files ==> u.files[p] == t.files[p])
    decreases |infos| - i
  {
    hide Reachable, Parents, Cut, Copied;
    if i < |infos| && infos[i].length >= 0 && Reachable(t, dst[i]) && dst[i] !in t.dirs {
      PayloadAfter(t, dst[i], offset, infos[i].length);
      if Copied(t, dst[i], offset, infos[i].length) {
        OthersUntouched(CopyIn(t, dst[i], offset, infos[i].length), infos, dst, i + 1, offset + infos[i].length, p);
      }
    }
  }

  /** A download whose files cannot be written keeps its resume file for the next attempt. */
  lemma FailureKeepsResumeFile(t: Tree, infos: seq<FileInfo>, line: Bytes)
    requires PAYLOAD in t.files && STATE in t.files && !Fitting(t, infos)
    requires forall j :: 0 <= j < |infos| ==> Destinations(infos)[j] != STATE
    ensures var (v, r) := Finished(t, infos, line);
            r != Written && STATE in v.files && v.files[STATE] == t.files[STATE]
  {
    hide Destinations, Fitting;
    WrittenIff(t, infos);
    OthersUntouched(t, infos, Destinations(infos), 0, 0, STATE);
  }

  // ----- Torrents that name the client's own files -----

  predicate Harmless(s: string) {
    && s != "" && s != "." && s != ".." && !IsSpace(s[0]) && !IsSpace(s[|s| - 1])
    && forall i :: 0 <= i < |s| ==> s[i] != '/' && s[i] != '\\'
  }

  /** A name without spaces at its ends and without slashes is used as it is. */
  lemma NamePassesThrough(name: string, length: int)
    requires Harmless(name)
    ensures Destinations([FileInfo(length, [name])]) == [[name]]
  {
    var info := FileInfo(length, [name]);
    assert info.path[..0] == [] && Clean([]) == [];
    assert Trim(name) == name;
    assert Underscored(name) == name;
    assert Clean(info.path) == [name];
  }

  lemma OwnNamesPassThrough()
    ensures Harmless(PAYLOAD[0]) && Harmless(STATE[0]) && Harmless(LOG[0])
  {
  }

  function OneFile(p: Path, length: int): seq<FileInfo> { [FileInfo(length, p)] }

  /** A torrent whose one file has the payload's name: the open empties the payload, and the copy fails. */
  lemma PayloadNameFails(t: Tree, length: nat)
    requires PAYLOAD in t.files && Enterable(t, PAYLOAD) && 0 < length <= |t.files[PAYLOAD]|
    ensures var (u, r) := Materialized(t, OneFile(PAYLOAD, length));
            r == ShortPayload(0) && PAYLOAD in u.files && u.files[PAYLOAD] == []
  {
    hide Enterable, Parents, Clean;
    OwnNamesPassThrough();
    NamePassesThrough(PAYLOAD[0], length);
    assert PAYLOAD == [PAYLOAD[0]];
    assert Destinations(OneFile(PAYLOAD, length))[0] == PAYLOAD;
    EnterableIs(t, PAYLOAD);
  }

  lemma EnterableIs(t: Tree, p: Path)
    requires Enterable(t, p)
    ensures Reachable(t, p) && p !in t.dirs
  {
  }

  /** One with the resume file's name is written, and gone once the download is finished. */
  lemma StateNameVanishes(t: Tree, length: nat, line: Bytes)
    requires PAYLOAD in t.files && Enterable(t, STATE) && length <= |t.files[PAYLOAD]|
    ensures var (v, r) := Finished(t, OneFile(STATE, length), line); r == Written && STATE !in v.files
  {
    OwnNamesPassThrough();
    NamePassesThrough(STATE[0], length);
    OneFileFits(t, STATE, length);
    hide Enterable, Parents, Clean, Destinations, Materialized, Harmless;
    FinishedResult(t, OneFile(STATE, length), line);
    FinishedFiles(t, OneFile(STATE, length), line);
  }

  /** One with the log's name has the log's last line after its own bytes. */
  lemma LogNameGrows(t: Tree, length: nat, line: Bytes)
    requires PAYLOAD in t.files && LOG in t.files && Enterable(t, LOG) && length <= |t.files[PAYLOAD]|
    ensures var (v, r) := Finished(t, OneFile(LOG, length), line);
            r == Written && LOG in v.files && v.files[LOG] == t.files[PAYLOAD][..length] + line
  {
    OwnNamesPassThrough();
    NamePassesThrough(LOG[0], length);
    OneFileFits(t, LOG, length);
    hide Enterable, Parents, Clean, Destinations, Materialized, Harmless;
    var infos := OneFile(LOG, length);
    LastWriterOwns(t, infos);
    FinishedResult(t, infos, line);
    FinishedFiles(t, infos, line);
    assert LOG != STATE by { assert |STATE[0]| != |LOG[0]|; }
    assert PrefixSum(infos, 0) == 0 && PrefixSum(infos, 1) == length;
    assert LastAt(Destinations(infos), 0);
  }

  lemma OneFileFits(t: Tree, p: Path, length: nat)
    requires PAYLOAD in t.files && Enterable(t, p) && length <= |t.files[PAYLOAD]|
    requires p != PAYLOAD && Destinations(OneFile(p, length)) == [p]
    ensures Materialized(t, OneFile(p, length)).1 == Written
  {
    hide Enterable, Parents, Clean, Destinations, Materialized;
    var infos := OneFile(p, length);
    assert PrefixSum(infos, 0) == 0 && PrefixSum(infos, 1) == length;
    WrittenIff(t, infos);
  }
}
