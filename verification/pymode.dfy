/**
 * Python's `mode_to_str`: a straight per-bit mapping of the raw tar header
 * mode. Position 0 is 'd' when the S_IFDIR bits 0o040000 are set; positions
 * 1-9 show r, w, x for owner, group and other when their bit is set.
 */
module PyMode {
  import opened Basics
  import opened Bits

  /** Each `perm_str += "<c>" if mode & bit == bit else "-"` appends one character. */
  function ModeToStr(mode: int): (r: string)
    ensures |r| == 10
  {
    [if IsSet(mode, PosixDir) then 'd' else '-',
     if IsSet(mode, 0x100) then 'r' else '-',
     if IsSet(mode, 0x80) then 'w' else '-',
     if IsSet(mode, 0x40) then 'x' else '-',
     if IsSet(mode, 0x20) then 'r' else '-',
     if IsSet(mode, 0x10) then 'w' else '-',
     if IsSet(mode, 0x8) then 'x' else '-',
     if IsSet(mode, 0x4) then 'r' else '-',
     if IsSet(mode, 0x2) then 'w' else '-',
     if IsSet(mode, 0x1) then 'x' else '-']
  }

  /** The ten bits `mode_to_str` reads (the mask 0o040777): S_IFDIR, then the nine permission bits. */
  function ModeBits(mode: int): (b: seq<bool>)
    ensures |b| == 10
  {
    [IsSet(mode, PosixDir)] + PermBits(mode)
  }

  /** Position by position: the letter exactly when its bit is set, otherwise '-'. */
  lemma ModeToStrBits(mode: int)
    ensures ModeToStr(mode)[0] == (if IsSet(mode, PosixDir) then 'd' else '-')
    ensures forall i :: 1 <= i < 10 ==>
              ModeToStr(mode)[i] == (if PermBit(mode, i - 1) then PermLetters[i - 1] else '-')
  {
    var r := ModeToStr(mode);
    forall i | 1 <= i < 10
      ensures r[i] == (if PermBit(mode, i - 1) then PermLetters[i - 1] else '-')
    {
      assert i in {1, 2, 3, 4, 5, 6, 7, 8, 9};
    }
  }

  /**
   * Reads a ten-character `ls -l` mode string back into the ten bits it shows;
   * `None` for anything that is not such a string.
   */
  function ParseModeStr(s: string): (b: Option<seq<bool>>)
    ensures b.Some? ==> |b.value| == 10
  {
    if |s| == 10 && (s[0] == 'd' || s[0] == '-')
       && forall i :: 1 <= i < 10 ==> s[i] == PermLetters[i - 1] || s[i] == '-'
    then Some([s[0] == 'd'] + seq(9, i requires 0 <= i < 9 => s[i + 1] == PermLetters[i]))
    else None
  }

  /** Parsing what `mode_to_str` printed recovers exactly the bits it read. */
  lemma ParseModeToStr(mode: int)
    ensures ParseModeStr(ModeToStr(mode)) == Some(ModeBits(mode))
  {
    var r := ModeToStr(mode);
    ModeToStrBits(mode);
    var b := ModeBits(mode);
    var p := ParseModeStr(r);
    assert p.Some?;
    forall i | 0 <= i < 10
      ensures p.value[i] == b[i]
    {
      if i > 0 {
        assert p.value[i] == (r[i] == PermLetters[i - 1]);
        assert b[i] == PermBit(mode, i - 1);
        assert PermLetters[i - 1] != '-';
      }
    }
    assert p.value == b;
  }

  /**
   * The string depends only on `mode & 0o040777`: two modes print the same
   * string exactly when they agree on those ten bits.
   */
  lemma ModeToStrInjective(a: int, b: int)
    ensures ModeToStr(a) == ModeToStr(b) <==> ModeBits(a) == ModeBits(b)
  {
    ParseModeToStr(a);
    ParseModeToStr(b);
    if ModeBits(a) == ModeBits(b) {
      assert PermBits(a) == ModeBits(a)[1..] == ModeBits(b)[1..] == PermBits(b);
      assert IsSet(a, PosixDir) == ModeBits(a)[0] == ModeBits(b)[0] == IsSet(b, PosixDir);
    }
  }

  /**
   * A directory whose mode field holds only its permission bits, as writers
   * that store `mode & 0o7777` produce: 0o755 lists with '-' first.
   */
  lemma ModeToStrPermOnlyDirectory(mode: int)
    requires mode == 0x1ED
    ensures ModeToStr(mode) == "-rwxr-xr-x"
    ensures ModeToStrTyped(true, mode) == "drwxr-xr-x"
  {
    assert !IsSet(mode, PosixDir);
    assert IsSet(mode, 0x100) && IsSet(mode, 0x80) && IsSet(mode, 0x40);
    assert IsSet(mode, 0x20) && !IsSet(mode, 0x10) && IsSet(mode, 0x8);
    assert IsSet(mode, 0x4) && !IsSet(mode, 0x2) && IsSet(mode, 0x1);
    var r := ModeToStr(mode);
    assert r == "-rwxr-xr-x";
    assert ModeToStrTyped(true, mode) == ['d'] + r[1..];
  }

  /**
   * `mode_to_str` as evidently intended: the first character says whether the
   * member is a directory (`member.isdir()`, passed as `isDir`), the other
   * nine are the permission letters as before.
   */
  function ModeToStrTyped(isDir: bool, mode: int): (r: string)
    ensures |r| == 10
  {
    [if isDir then 'd' else '-'] + ModeToStr(mode)[1..]
  }

  /** The corrected string reads the member type and the nine permission bits, and nothing else. */
  lemma ModeToStrTypedBits(isDir: bool, mode: int)
    ensures ModeToStrTyped(isDir, mode)[0] == 'd' <==> isDir
    ensures forall i :: 1 <= i < 10 ==>
              ModeToStrTyped(isDir, mode)[i] == (if PermBit(mode, i - 1) then PermLetters[i - 1] else '-')
    ensures ModeToStrTyped(isDir, mode) == ModeToStr(mode) <==> isDir == IsSet(mode, PosixDir)
  {
    var t := ModeToStrTyped(isDir, mode);
    var r := ModeToStr(mode);
    ModeToStrBits(mode);
    assert t[1..] == r[1..];
    if isDir == IsSet(mode, PosixDir) {
      assert t == [t[0]] + t[1..] && r == [r[0]] + r[1..];
    }
  }
}
