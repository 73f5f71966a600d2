/** The size-limited log and its numbered backups. */
module RotatingLog {
  import opened Bytes

  /** File 0 is the current log, file i its i-th backup. */
  type Directory = map<nat, seq<byte>>

  // ---- what the directory holds ----------------------------------------------------------

  /** The bytes written so far, cut into full files and the current one. */
  datatype Cut = Cut(full: seq<seq<byte>>, current: seq<byte>)

  ghost predicate Sized(c: Cut, limit: nat) {
    (forall i :: 0 <= i < |c.full| ==> |c.full[i]| == limit) && |c.current| <= limit
  }

  /** A new file is started only for a byte that goes into it. */
  ghost predicate Proper(c: Cut, limit: nat) {
    Sized(c, limit) && (c.full != [] ==> c.current != [])
  }

  ghost function Written(c: Cut): (s: seq<byte>) {
    Flatten(c.full) + c.current
  }

  function FileOf(c: Cut, i: nat): (f: seq<byte>)
    requires i <= |c.full|
  {
    if i == 0 then c.current else c.full[|c.full| - i]
  }

  /** The newest `backups` full files, newest first, behind the current one. */
  ghost function Files(c: Cut, backups: nat): (d: Directory) {
    map i: nat | i <= backups && i <= |c.full| :: FileOf(c, i)
  }

  /** Files `n` down to 0, oldest first. */
  function Contents(d: Directory, n: nat): (s: seq<byte>) {
    (if n in d then d[n] else []) + if n == 0 then [] else Contents(d, n - 1)
  }

  lemma FilesAt(c: Cut, backups: nat, n: nat)
    requires n <= backups && n <= |c.full|
    ensures n in Files(c, backups) && Files(c, backups)[n] == FileOf(c, n)
  {
  }

  lemma FlattenFrom(full: seq<seq<byte>>, k: nat)
    requires k < |full|
    ensures Flatten(full[k..]) == full[k] + Flatten(full[k + 1..])
  {
    assert full[k..][0] == full[k] && full[k..][1..] == full[k + 1..];
  }

  lemma {:induction false} ContentsOfFiles(c: Cut, backups: nat, n: nat)
    requires n <= backups && n <= |c.full|
    ensures Contents(Files(c, backups), n) == Flatten(c.full[|c.full| - n..]) + c.current
    decreases n
  {
    hide Files, Flatten;
    FilesAt(c, backups, n);
    if n == 0 {
      FlattenNothing<byte>();
      assert c.full[|c.full|..] == [] && c.current + [] == c.current && [] + c.current == c.current;
    } else {
      ContentsOfFiles(c, backups, n - 1);
      var k := |c.full| - n;
      FlattenFrom(c.full, k);
      Assoc(c.full[k], Flatten(c.full[k + 1..]), c.current);
    }
  }

  lemma {:induction false} ContentsBeyond(c: Cut, backups: nat, n: nat)
    requires |c.full| <= n
    ensures Contents(Files(c, backups), n) == Contents(Files(c, backups), |c.full|)
    decreases n
  {
    if n > |c.full| {
      ContentsBeyond(c, backups, n - 1);
    }
  }

  function Min(a: nat, b: nat): (m: nat)
    ensures m == a || m == b
    ensures m <= a && m <= b
  {
    if a < b then a else b
  }

  /** Read oldest to newest, the files are a suffix of the bytes written. */
  lemma FilesAreASuffix(c: Cut, backups: nat)
    ensures var kept := Contents(Files(c, backups), backups);
            Written(c) == Flatten(c.full[..|c.full| - Min(backups, |c.full|)]) + kept
  {
    var n := Min(backups, |c.full|);
    if backups > |c.full| {
      ContentsBeyond(c, backups, backups);
    }
    ContentsOfFiles(c, backups, n);
    var k := |c.full| - n;
    assert c.full == c.full[..k] + c.full[k..];
    FlattenConcat(c.full[..k], c.full[k..]);
    Assoc(Flatten(c.full[..k]), Flatten(c.full[k..]), c.current);
  }

  lemma WrittenSize(c: Cut, limit: nat)
    requires Sized(c, limit)
    ensures |Written(c)| == |c.full| * limit + |c.current|
  {
    FullSize(c.full, limit);
  }

  lemma {:induction false} FullSize(full: seq<seq<byte>>, limit: nat)
    requires forall i :: 0 <= i < |full| ==> |full[i]| == limit
    ensures |Flatten(full)| == |full| * limit
    decreases |full|
  {
    if full != [] {
      FullSize(full[1..], limit);
      assert |full| * limit == limit + (|full| - 1) * limit;
    }
  }

  /** There are as many backups as full files fit before the last byte, up to the backup count. */
  lemma BackupCount(c: Cut, limit: nat)
    requires Proper(c, limit) && limit > 0 && Written(c) != []
    ensures |c.full| == (|Written(c)| - 1) / limit
  {
    WrittenSize(c, limit);
    var f, r := |c.full|, |c.current| - 1;
    assert |Written(c)| - 1 == f * limit + r;
    if c.full == [] {
      assert Written(c) == [] + c.current;
    }
    DivideBlocks(f, limit, r);
  }

  lemma DivideBlocks(f: nat, limit: nat, r: int)
    requires 0 <= r < limit
    ensures (f * limit + r) / limit == f
  {
    var q := (f * limit + r) / limit;
    ProductGrows(q + 1, f, limit);
    ProductGrows(f + 1, q, limit);
  }

  lemma ProductGrows(a: int, b: int, limit: nat)
    ensures a <= b ==> a * limit <= b * limit
  {
  }

  /** Nothing is lost until the files are all full. */
  lemma NothingLost(c: Cut, limit: nat, backups: nat)
    requires Proper(c, limit) && |Written(c)| <= (backups + 1) * limit
    ensures Contents(Files(c, backups), backups) == Written(c)
  {
    WrittenSize(c, limit);
    ProductGrows(backups + 1, |c.full|, limit);
    FilesAreASuffix(c, backups);
    assert c.full[..0] == [];
  }

  lemma FullWhenLong(c: Cut, limit: nat)
    requires Proper(c, limit)
    ensures c.full == [] <==> |Written(c)| <= limit
  {
    WrittenSize(c, limit);
    ProductGrows(1, |c.full|, limit);
  }

  /** The cut depends on the bytes alone: not on how they came in nor on how they were accepted. */
  lemma {:induction false} CutIsUnique(a: Cut, b: Cut, limit: nat)
    requires Proper(a, limit) && Proper(b, limit) && limit > 0 && Written(a) == Written(b)
    ensures a == b
    decreases |a.full|
  {
    FullWhenLong(a, limit);
    FullWhenLong(b, limit);
    if a.full == [] && b.full == [] {
      assert [] + a.current == a.current && [] + b.current == b.current;
    } else if a.full == [] || b.full == [] {
      assert false;
    } else {
      var a', b' := Cut(a.full[1..], a.current), Cut(b.full[1..], b.current);
      Assoc(a.full[0], Flatten(a.full[1..]), a.current);
      Assoc(b.full[0], Flatten(b.full[1..]), b.current);
      assert a.full[0] == Written(a)[..limit] && b.full[0] == Written(b)[..limit];
      assert Written(a') == Written(a)[limit..] && Written(b') == Written(b)[limit..];
      CutIsUnique(a', b', limit);
      assert a.full == [a.full[0]] + a'.full && b.full == [b.full[0]] + b'.full;
    }
  }

  /** The cut of a stream: full files off its front while more than one file is left. */
  ghost function CutOf(s: seq<byte>, limit: nat): (c: Cut)
    requires limit > 0
    decreases |s|
  {
    if |s| <= limit then Cut([], s)
    else
      var rest := CutOf(s[limit..], limit);
      Cut([s[..limit]] + rest.full, rest.current)
  }

  lemma OneFile(s: seq<byte>, limit: nat)
    requires |s| <= limit
    ensures Proper(Cut([], s), limit) && Written(Cut([], s)) == s
  {
    assert [] + s == s;
  }

  lemma Prepended(first: seq<byte>, c: Cut, limit: nat)
    requires Proper(c, limit) && |first| == limit && Written(c) != []
    ensures var c' := Cut([first] + c.full, c.current);
            Proper(c', limit) && Written(c') == first + Written(c)
  {
    var full := [first] + c.full;
    assert full[1..] == c.full;
    Assoc(first, Flatten(c.full), c.current);
    assert c.full == [] ==> Written(c) == [] + c.current;
  }

  lemma {:induction false} CutOfWritten(s: seq<byte>, limit: nat)
    requires limit > 0
    ensures Proper(CutOf(s, limit), limit) && Written(CutOf(s, limit)) == s
    decreases |s|
  {
    hide Written, Proper;
    if |s| <= limit {
      OneFile(s, limit);
    } else {
      var rest := CutOf(s[limit..], limit);
      assert CutOf(s, limit) == Cut([s[..limit]] + rest.full, rest.current);
      hide CutOf;
      CutOfWritten(s[limit..], limit);
      Prepended(s[..limit], rest, limit);
      assert s == s[..limit] + s[limit..];
    }
  }

  // ---- rotation -----------------------------------------------------------------------------

  /** Renaming replaces the target; a missing source is tolerated and changes nothing. */
  function Rename(d: Directory, from: nat, to: nat): (r: Directory)
    requires from != to
  {
    if from in d then (d - {from})[to := d[from]] else d
  }

  function At(d: Directory, k: int): (f: Option<seq<byte>>) {
    if k >= 0 && k in d then Some(d[k]) else None
  }

  /** Where file `k` comes from when the files above place `i + 1` have moved up and that place is free. */
  function Origin(backups: nat, i: int, k: int): (from: int) {
    if i + 1 < k <= backups then k - 1 else if k == i + 1 then -1 else k
  }

  /** Half-way through the renames: those above `i` are done and place `i + 1` is free. */
  ghost predicate HalfShifted(d: Directory, d': Directory, backups: nat, i: int) {
    forall k: nat :: At(d', k) == At(d, Origin(backups, i, k))
  }

  /** Every file up to `backups` one place up, the last one dropped, higher numbers untouched. */
  ghost predicate Shifted(d: Directory, d': Directory, backups: nat) {
    HalfShifted(d, d', backups, -1)
  }

  lemma RenameShifts(d: Directory, d': Directory, backups: nat, i: nat)
    requires i < backups && HalfShifted(d, d', backups, i)
    ensures HalfShifted(d, Rename(d', i, i + 1), backups, i - 1)
  {
    var r := Rename(d', i, i + 1);
    forall k: nat ensures At(r, k) == At(d, Origin(backups, i - 1, k)) {
      assert At(d', k) == At(d, Origin(backups, i, k)) && At(d', i) == At(d, Origin(backups, i, i));
    }
  }

  method RotateFiles(d: Directory, backups: nat) returns (d': Directory)
    requires backups > 0
    ensures Shifted(d, d', backups)
  {
    d' := d - {backups};
    var i := backups - 1;
    assert HalfShifted(d, d', backups, i);
    while i > 0
      invariant 0 <= i < backups && HalfShifted(d, d', backups, i)
    {
      RenameShifts(d, d', backups, i);
      d' := Rename(d', i, i + 1);
      i := i - 1;
    }
    RenameShifts(d, d', backups, 0);
    d' := Rename(d', 0, 1);
  }

  lemma ShiftedFiles(c: Cut, d': Directory, backups: nat)
    requires backups > 0 && Shifted(Files(c, backups), d', backups)
    ensures d'[0 := []] == Files(Cut(c.full + [c.current], []), backups)
  {
    var d := Files(c, backups);
    var f := Files(Cut(c.full + [c.current], []), backups);
    forall k: nat
      ensures k in d'[0 := []] <==> k in f
      ensures k in f ==> d'[0 := []][k] == f[k]
    {
      assert At(d', k) == At(d, Origin(backups, -1, k));
    }
  }

  /** What the file system makes of one write: it takes at most so many bytes, or fails. */
  datatype Grant = Takes(n: nat) | Fails(interrupted: bool)

  datatype WriteResult = Wrote | Failed(interrupted: bool)

  predicate Positive(grants: seq<Grant>) {
    forall k :: 0 <= k < |grants| ==> grants[k].Takes? && grants[k].n > 0
  }

  class RotatingLog {
    var dir: Directory
    var len: nat
    const limit: nat
    const backups: nat
    /** Everything the file system has accepted. */
    ghost var cut: Cut

    ghost predicate Valid()
      reads this
    {
      && limit > 0 && backups > 0
      && dir == Files(cut, backups) && Sized(cut, limit) && len == |cut.current|
    }

    constructor (limit: nat, backups: nat)
      requires limit > 0 && backups > 0
      ensures Valid() && cut == Cut([], []) && this.limit == limit && this.backups == backups
    {
      this.limit, this.backups := limit, backups;
      dir, len, cut := map[0 := []], 0, Cut([], []);
    }

    method Rotate()
      requires Valid() && len == limit
      modifies this
      ensures Valid() && cut == Cut(old(cut).full + [old(cut).current], []) && Written(cut) == old(Written(cut))
    {
      var shifted := RotateFiles(dir, backups);
      ShiftedFiles(cut, shifted, backups);
      FlattenSnoc(cut.full, cut.current);
      dir := shifted[0 := []];
      len := 0;
      cut := Cut(cut.full + [cut.current], []);
      assert Written(cut) == Flatten(cut.full) + [];
    }

    method Append(chunk: seq<byte>)
      requires Valid() && |chunk| <= limit - len
      modifies this
      ensures Valid() && cut == Cut(old(cut).full, old(cut).current + chunk)
              && Written(cut) == old(Written(cut)) + chunk
    {
      Assoc(Flatten(cut.full), cut.current, chunk);
      dir := dir[0 := dir[0] + chunk];
      len := len + |chunk|;
      cut := Cut(cut.full, cut.current + chunk);
    }

    /** `grants` are the outcomes of the writes to the file; taking nothing is an error, and so is a failure. */
    method Write(bytes: seq<byte>, grants: seq<Grant>) returns (r: WriteResult, ghost accepted: nat)
      requires Valid()
      modifies this
      ensures Valid() && accepted <= |bytes|
      ensures Written(cut) == old(Written(cut)) + bytes[..accepted]
      ensures r.Wrote? ==> accepted == |bytes|
      ensures Positive(grants) ==> r.Wrote?
      ensures r.Wrote? && (bytes != [] || Proper(old(cut), limit)) ==>
                Proper(cut, limit) && cut == CutOf(old(Written(cut)) + bytes, limit)
    {
      hide Files, Flatten, CutOf;
      var remaining, turn := bytes, 0;
      accepted := 0;
      assert bytes[..0] == [] && Written(cut) + [] == Written(cut);
      while remaining != []
        invariant accepted <= |bytes| && remaining == bytes[accepted..] && turn <= |grants|
        invariant Valid() && Written(cut) == old(Written(cut)) + bytes[..accepted]
        invariant accepted == 0 ==> cut == old(cut)
        invariant accepted > 0 ==> Proper(cut, limit)
        decreases |remaining|
      {
        if len >= limit {
          Rotate();
        }
        var written := Min(|remaining|, limit - len);
        if turn < |grants| {
          if grants[turn].Fails? {
            return Failed(grants[turn].interrupted), accepted;
          }
          written := Min(written, grants[turn].n);
          turn := turn + 1;
        }
        if written == 0 {
          return Failed(false), accepted;
        }
        Append(remaining[..written]);
        assert bytes[..accepted + written] == bytes[..accepted] + remaining[..written];
        Assoc(old(Written(cut)), bytes[..accepted], remaining[..written]);
        accepted := accepted + written;
        remaining := remaining[written..];
      }
      assert bytes[..accepted] == bytes;
      CutOfWritten(Written(cut), limit);
      if Proper(cut, limit) {
        CutIsUnique(cut, CutOf(Written(cut), limit), limit);
      }
      return Wrote, accepted;
    }
  }
}
