/** Log files with rotation, on a file system that is a map from suffix numbers to lines.  Number 0
    is the file itself, number k the file with the suffix `.k`. */
module LogRotation {
  import opened Trading

  newtype Byte = x: int | 0 <= x < 256

  /** The UTF-8 bytes of a line. */
  type Line = seq<Byte>
  type Files = map<nat, seq<Line>>

  datatype RotationConfig = RotationConfig(maxBytes: nat, maxFiles: nat)

  /** Size of a file: every line ends in a newline. */
  function Bytes(lines: seq<Line>): nat {
    if |lines| == 0 then 0 else Bytes(lines[..|lines| - 1]) + |lines[|lines| - 1]| + 1
  }

  lemma BytesSnoc(lines: seq<Line>, line: Line)
    ensures Bytes(lines + [line]) == Bytes(lines) + |line| + 1
  {
    assert (lines + [line])[..|lines|] == lines;
  }

  // ---- packing lines into files ----------------------------------------------------------------

  /** Lines packed greedily: a line that would make the last file too long starts a new one. */
  function Packed(lines: seq<Line>, maxBytes: nat): (files: seq<seq<Line>>)
    ensures |files| == 0 <==> |lines| == 0
  {
    if |lines| == 0 then []
    else AddLine(Packed(lines[..|lines| - 1], maxBytes), lines[|lines| - 1], maxBytes)
  }

  function AddLine(files: seq<seq<Line>>, line: Line, maxBytes: nat): seq<seq<Line>> {
    if |files| > 0 && Bytes(files[|files| - 1]) + |line| + 1 <= maxBytes
    then files[..|files| - 1] + [files[|files| - 1] + [line]]
    else files + [[line]]
  }

  function Joined(files: seq<seq<Line>>): seq<Line> {
    if |files| == 0 then [] else Joined(files[..|files| - 1]) + files[|files| - 1]
  }

  lemma JoinedSnoc(files: seq<seq<Line>>, file: seq<Line>)
    ensures Joined(files + [file]) == Joined(files) + file
  {
    assert (files + [file])[..|files|] == files;
  }

  lemma {:induction false} JoinedAppend(a: seq<seq<Line>>, b: seq<seq<Line>>)
    ensures Joined(a + b) == Joined(a) + Joined(b)
  {
    if |b| == 0 {
      assert a + b == a;
    } else {
      var init, last := b[..|b| - 1], b[|b| - 1];
      JoinedAppend(a, init);
      assert a + b == (a + init) + [last];
      JoinedSnoc(a + init, last);
    }
  }

  /** Packing loses nothing and keeps the order. */
  lemma {:induction false} PackingKeepsLines(lines: seq<Line>, maxBytes: nat)
    ensures Joined(Packed(lines, maxBytes)) == lines
  {
    if |lines| > 0 {
      var init, line := lines[..|lines| - 1], lines[|lines| - 1];
      var files := Packed(init, maxBytes);
      PackingKeepsLines(init, maxBytes);
      if |files| > 0 {
        JoinedSnoc(files[..|files| - 1], files[|files| - 1] + [line]);
      }
      JoinedSnoc(files, [line]);
    }
  }

  /** Every file is within the limit or holds a single line. */
  lemma {:induction false} PackingFits(lines: seq<Line>, maxBytes: nat)
    ensures forall i :: 0 <= i < |Packed(lines, maxBytes)| ==> Fits(Packed(lines, maxBytes)[i], maxBytes)
  {
    if |lines| > 0 {
      PackingFits(lines[..|lines| - 1], maxBytes);
      AddedFits(Packed(lines[..|lines| - 1], maxBytes), lines[|lines| - 1], maxBytes);
    }
  }

  lemma AddedFits(files: seq<seq<Line>>, line: Line, maxBytes: nat)
    requires forall i :: 0 <= i < |files| ==> Fits(files[i], maxBytes)
    ensures forall i :: 0 <= i < |AddLine(files, line, maxBytes)| ==> Fits(AddLine(files, line, maxBytes)[i], maxBytes)
  {
    var more := AddLine(files, line, maxBytes);
    if more == files + [[line]] {
      assert Fits([line], maxBytes);
    } else {
      var last := files[|files| - 1];
      BytesSnoc(last, line);
      assert Fits(last + [line], maxBytes);
      assert more == files[..|files| - 1] + [last + [line]];
    }
  }

  predicate Fits(file: seq<Line>, maxBytes: nat) {
    Bytes(file) <= maxBytes || |file| == 1
  }

  // ---- the files on disk --------------------------------------------------------------------------

  /** The files are the last ones of a packing, the newest without a number and older ones with
      higher numbers, up to the maximum. */
  ghost predicate Shows(files: Files, packed: seq<seq<Line>>, maxFiles: nat) {
    && (forall k: nat :: k in files <==> k <= maxFiles && k < |packed|)
    && (forall k: nat :: k in files ==> files[k] == packed[|packed| - 1 - k])
  }

  /** What a rotation does to files without holes: every number grows by one, the last falls out. */
  ghost predicate Rotated(before: Files, after: Files, maxFiles: nat) {
    && (forall k: nat :: k in after <==> 0 < k <= maxFiles && k - 1 in before)
    && (forall k: nat :: k in after ==> after[k] == before[k - 1])
  }

  /** The lines that can be read, oldest file first. */
  ghost function Readable(files: Files, n: nat): seq<Line>
    requires forall k: nat :: k < n ==> k in files
  {
    if n == 0 then [] else files[n - 1] + Readable(files, n - 1)
  }

  lemma {:induction false} ReadableIsJoined(files: Files, packed: seq<seq<Line>>, maxFiles: nat, n: nat)
    requires Shows(files, packed, maxFiles) && n <= maxFiles + 1 && n <= |packed|
    ensures Readable(files, n) == Joined(packed[|packed| - n..])
  {
    if n > 0 {
      ReadableIsJoined(files, packed, maxFiles, n - 1);
      assert packed[|packed| - n..] == [packed[|packed| - n]] + packed[|packed| - n + 1..];
      JoinedAppend([packed[|packed| - n]], packed[|packed| - n + 1..]);
      JoinedSnoc([], packed[|packed| - n]);
      assert [] + [packed[|packed| - n]] == [packed[|packed| - n]];
    }
  }

  function FileCount(written: seq<Line>, rotation: RotationConfig): nat {
    var n := |Packed(written, rotation.maxBytes)|;
    if n <= rotation.maxFiles then n else rotation.maxFiles + 1
  }

  ghost predicate IsSuffix(part: seq<Line>, whole: seq<Line>) {
    |part| <= |whole| && part == whole[|whole| - |part|..]
  }

  /** Whatever was written: the files number 0, 1, ... without a hole, at most `maxFiles` of them
      are rotated ones, each fits or holds a single line, and read from the highest number down
      they give the last lines written, all of them if no rotated file had to be dropped. */
  lemma FilesAreSuffix(files: Files, written: seq<Line>, rotation: RotationConfig)
    requires Shows(files, Packed(written, rotation.maxBytes), rotation.maxFiles)
    ensures var n := FileCount(written, rotation);
            && n <= rotation.maxFiles + 1
            && (forall k: nat :: k in files <==> k < n)
            && (forall k: nat :: k in files ==> Fits(files[k], rotation.maxBytes))
            && IsSuffix(Readable(files, n), written)
            && (|Packed(written, rotation.maxBytes)| <= rotation.maxFiles + 1 ==> Readable(files, n) == written)
  {
    var packed, n := Packed(written, rotation.maxBytes), FileCount(written, rotation);
    PackingFits(written, rotation.maxBytes);
    PackingKeepsLines(written, rotation.maxBytes);
    ReadableIsJoined(files, packed, rotation.maxFiles, n);
    LastFilesAreSuffix(packed, n);
  }

  ghost predicate NoHoles(files: Files) {
    forall k: nat :: k in files && k > 0 ==> k - 1 in files
  }

  function At(files: Files, k: int): Option<seq<Line>> {
    if k >= 0 && k in files then Some(files[k]) else None
  }

  /** Where a file comes from in a rotation that still has the numbers from `index` down to do. */
  function Origin(k: nat, index: nat, maxFiles: nat): int {
    if k < index || k == index == maxFiles then k
    else if index < k <= maxFiles then k - 1
    else -1
  }

  ghost predicate HalfRotated(before: Files, after: Files, index: nat, maxFiles: nat) {
    forall k: nat :: At(after, k) == At(before, Origin(k, index, maxFiles))
  }

  lemma RotationStep(before: Files, files: Files, next: Files, index: nat, maxFiles: nat)
    requires 1 <= index <= maxFiles && NoHoles(before) && HalfRotated(before, files, index, maxFiles)
    requires next == if index - 1 in files then files[index := files[index - 1]] - {index - 1} else files
    ensures HalfRotated(before, next, index - 1, maxFiles)
  {
    assert At(files, index - 1) == At(before, index - 1);
    forall k: nat
      ensures At(next, k) == At(before, Origin(k, index - 1, maxFiles))
    {
      assert At(files, k) == At(before, Origin(k, index, maxFiles));
    }
  }

  lemma EndOfRotation(before: Files, after: Files, maxFiles: nat)
    requires maxFiles > 0 && HalfRotated(before, after, 0, maxFiles)
    ensures Rotated(before, after, maxFiles)
  {
    forall k: nat
      ensures At(after, k) == if 0 < k <= maxFiles then At(before, k - 1) else None
    {
      assert At(after, k) == At(before, Origin(k, 0, maxFiles));
    }
    assert forall k: nat :: k in after <==> At(after, k).Some?;
  }

  lemma NotRotated(files: Files, maxFiles: nat)
    requires forall k: nat :: k in files ==> k <= maxFiles
    ensures HalfRotated(files, files, maxFiles, maxFiles)
  {
  }

  lemma LastFilesAreSuffix(packed: seq<seq<Line>>, n: nat)
    requires n <= |packed|
    ensures IsSuffix(Joined(packed[|packed| - n..]), Joined(packed))
    ensures n == |packed| ==> Joined(packed[|packed| - n..]) == Joined(packed)
  {
    assert packed[..|packed| - n] + packed[|packed| - n..] == packed;
    JoinedAppend(packed[..|packed| - n], packed[|packed| - n..]);
  }

  lemma PackedSnoc(written: seq<Line>, line: Line, maxBytes: nat)
    ensures Packed(written + [line], maxBytes) == AddLine(Packed(written, maxBytes), line, maxBytes)
  {
    assert (written + [line])[..|written|] == written;
  }

  lemma FirstFileShows(packed: seq<seq<Line>>, line: Line, files: Files, maxFiles: nat)
    requires packed == [] && Shows(files, packed, maxFiles)
    ensures Shows(files[0 := [line]], packed + [[line]], maxFiles)
  {
  }

  lemma RotationShows(before: Files, after: Files, packed: seq<seq<Line>>, line: Line, maxFiles: nat)
    requires maxFiles > 0 && Shows(before, packed, maxFiles) && Rotated(before, after, maxFiles)
    ensures Shows(after[0 := [line]], packed + [[line]], maxFiles)
  {
  }

  /** A line that starts a new file, after a rotation if there is a file already. */
  lemma NewFileShows(before: Files, after: Files, written: seq<Line>, line: Line, rotation: RotationConfig)
    requires rotation.maxFiles > 0 && Shows(before, Packed(written, rotation.maxBytes), rotation.maxFiles)
    requires if 0 in before then Rotated(before, after, rotation.maxFiles) && Bytes(before[0]) + |line| + 1 > rotation.maxBytes
             else after == before
    ensures Shows(after[0 := [line]], Packed(written + [line], rotation.maxBytes), rotation.maxFiles)
  {
    PackedSnoc(written, line, rotation.maxBytes);
    var packed := Packed(written, rotation.maxBytes);
    assert 0 in before <==> |packed| > 0;
    assert AddLine(packed, line, rotation.maxBytes) == packed + [[line]];
    if 0 in before {
      RotationShows(before, after, packed, line, rotation.maxFiles);
    } else {
      FirstFileShows(packed, line, before, rotation.maxFiles);
    }
  }

  lemma LastFileGrows(files: Files, packed: seq<seq<Line>>, last: seq<Line>, longer: seq<Line>, maxFiles: nat)
    requires Shows(files, packed + [last], maxFiles)
    ensures 0 in files && files[0] == last
    ensures Shows(files[0 := longer], packed + [longer], maxFiles)
  {
    assert (packed + [last])[|packed|] == last;
    forall k: nat | k in files && k > 0
      ensures files[k] == (packed + [longer])[|packed| - k]
    {
      assert files[k] == (packed + [last])[|packed| - k];
    }
  }

  /** A line that still fits. */
  lemma AppendShows(files: Files, written: seq<Line>, line: Line, rotation: RotationConfig)
    requires Shows(files, Packed(written, rotation.maxBytes), rotation.maxFiles)
    requires 0 in files && Bytes(files[0]) + |line| + 1 <= rotation.maxBytes
    ensures Shows(files[0 := files[0] + [line]], Packed(written + [line], rotation.maxBytes), rotation.maxFiles)
  {
    PackedSnoc(written, line, rotation.maxBytes);
    var packed := Packed(written, rotation.maxBytes);
    var init, last := packed[..|packed| - 1], packed[|packed| - 1];
    assert packed == init + [last];
    LastFileGrows(files, init, last, last + [line], rotation.maxFiles);
  }

  class FileLogger {
    const rotation: RotationConfig
    var files: Files
    /** All lines written, kept or dropped. */
    ghost var written: seq<Line>

    ghost predicate Valid()
      reads this
    {
      rotation.maxFiles > 0 && Shows(files, Packed(written, rotation.maxBytes), rotation.maxFiles)
    }

    /** On an empty directory. */
    constructor (rotation: RotationConfig)
      requires rotation.maxFiles > 0
      ensures Valid() && files == map[] && written == [] && this.rotation == rotation
    {
      this.rotation := rotation;
      files := map[];
      written := [];
    }

    method WriteLine(line: Line)
      requires Valid()
      modifies this
      ensures Valid() && written == old(written) + [line]
    {
      var bytes := |line| + 1;
      if 0 in files && Bytes(files[0]) + bytes <= rotation.maxBytes {
        AppendShows(files, written, line, rotation);
      }
      if 0 in files {
        if Bytes(files[0]) + bytes > rotation.maxBytes {
          Rotate();
          assert 0 !in files;
          NewFileShows(old(files), files, written, line, rotation);
        }
      } else {
        NewFileShows(files, files, written, line, rotation);
      }
      files := files[0 := if 0 in files then files[0] + [line] else [line]];
      written := written + [line];
    }

    /** Moves the files up one number, from the highest to the lowest. */
    method Rotate()
      requires Valid()
      modifies this`files
      ensures Rotated(old(files), files, rotation.maxFiles)
    {
      NotRotated(files, rotation.maxFiles);
      var index: nat := rotation.maxFiles;
      while index >= 1
        invariant index <= rotation.maxFiles
        invariant HalfRotated(old(files), files, index, rotation.maxFiles)
      {
        ghost var before := files;
        var source := index - 1;
        if source in files {
          if index in files {
            files := files - {index};
          }
          files := files[index := files[source]] - {source};
        }
        RotationStep(old(files), before, files, index, rotation.maxFiles);
        index := index - 1;
      }
      EndOfRotation(old(files), files, rotation.maxFiles);
    }
  }

  /** A logger needs room for at least one rotated file. */
  method NewFileLogger(rotation: RotationConfig) returns (r: Option<FileLogger>)
    ensures r.None? <==> rotation.maxFiles == 0
    ensures r.Some? ==> fresh(r.value) && r.value.Valid() && r.value.files == map[] && r.value.rotation == rotation
  {
    if rotation.maxFiles == 0 {
      return None;
    }
    var logger := new FileLogger(rotation);
    return Some(logger);
  }
}
