/**
 * The two listers side by side: for the same header and lookups, where the
 * Go and the Python lines agree, and how their mode strings differ.
 */
module ModeComparison {
  import opened Bits
  import opened Archive
  import Columns
  import GoMode
  import GoModeFacts
  import PyMode
  import GoListing
  import PyListing

  /** The r, w and x bits are each set for all of owner, group and other, or for none. */
  predicate UniformPerms(m: int)
  {
    var b := PermBits(m);
    b[0] == b[3] == b[6] && b[1] == b[4] == b[7] && b[2] == b[5] && b[5] == b[8]
  }

  /**
   * The corrected Go mode string shows the same nine permission letters as
   * Python's, and the same first character exactly when Go's directory flag
   * and the S_IFDIR bit of the mode field agree.
   */
  lemma IntendedMatchesPython(h: Header)
    ensures GoModeFacts.ModeToStrIntended(GoFileMode(h))[1..] == PyMode.ModeToStr(h.mode)[1..]
    ensures GoModeFacts.ModeToStrIntended(GoFileMode(h))[0] == PyMode.ModeToStr(h.mode)[0]
        <==> h.isDir == IsSet(h.mode, PosixDir)
  {
    var g := GoModeFacts.ModeToStrIntended(GoFileMode(h));
    var p := PyMode.ModeToStr(h.mode);
    GoFileModeBits(h);
    PyMode.ModeToStrBits(h.mode);
    forall i | 1 <= i < 10
      ensures g[i] == p[i]
    {
      assert g[i] == (if PermBit(GoFileMode(h) as int, i - 1) then PermLetters[i - 1] else '-');
    }
  }

  /** Go keeps the header's nine permission bits, so uniformity reads the same on either mode. */
  lemma UniformPermsIff(h: Header)
    ensures UniformPerms(h.mode) <==>
      GoModeFacts.Uniform(GoFileMode(h), 0) && GoModeFacts.Uniform(GoFileMode(h), 1) && GoModeFacts.Uniform(GoFileMode(h), 2)
  {
    var m := GoFileMode(h);
    GoFileModeBits(h);
    assert PermBits(m as int) == PermBits(h.mode) by {
      forall i | 0 <= i < 9
        ensures PermBits(m as int)[i] == PermBits(h.mode)[i]
      {
        assert PermBit(m as int, i) == PermBit(h.mode, i);
      }
    }
  }

  /**
   * Three ten-character strings where `g` and `t` share their first character
   * and `t` and `p` share the rest: `g` equals `p` exactly when both halves line up.
   */
  lemma SplicedEqual(g: string, t: string, p: string)
    requires |g| == |t| == |p| == 10
    requires g[0] == t[0] && t[1..] == p[1..]
    ensures g == p <==> t[0] == p[0] && g == t
  {
    if g == p {
      assert t == [t[0]] + t[1..] && g == [g[0]] + g[1..];
    }
    if t[0] == p[0] && g == t {
      assert t == [t[0]] + t[1..] && p == [p[0]] + p[1..];
    }
  }

  /**
   * The Go and the Python programs print the same mode string exactly when
   * the directory indications agree and the permission bits are uniform.
   */
  lemma ModeStringsAgreeIff(h: Header)
    ensures GoMode.ModeToStr(GoFileMode(h)) == PyMode.ModeToStr(h.mode)
        <==> h.isDir == IsSet(h.mode, PosixDir) && UniformPerms(h.mode)
  {
    var m := GoFileMode(h);
    IntendedMatchesPython(h);
    GoModeFacts.ModeToStrMatchesIntendedIff(m);
    UniformPermsIff(h);
    GoModeFacts.ModeToStrExact(m);
    SplicedEqual(GoMode.ModeToStr(m), GoModeFacts.ModeToStrIntended(m), PyMode.ModeToStr(h.mode));
  }

  /** Built from the same header and lookups, the two entries differ at most in their mode strings. */
  lemma EntriesCorrespond(env: Env, h: Header)
    ensures GoListing.BuildEntry(env, h, true).modeStr == GoMode.ModeToStr(GoFileMode(h))
    ensures PyListing.BuildEntry(env, h).modeStr == PyMode.ModeToStr(h.mode)
    ensures GoListing.BuildEntry(env, h, true).(modeStr := PyMode.ModeToStr(h.mode))
         == GoListing.TarEntry(PyMode.ModeToStr(h.mode),
              PyListing.BuildEntry(env, h).uidName, PyListing.BuildEntry(env, h).gidName,
              PyListing.BuildEntry(env, h).size, PyListing.BuildEntry(env, h).mtime,
              PyListing.BuildEntry(env, h).name, true)
  {
  }

  /** A Go line showing its timestamp and a Python line with the same other fields agree exactly when their mode strings do. */
  lemma LineAgreeIff(ge: GoListing.TarEntry, pe: PyListing.Entry)
    requires ge.showTimestamp && |ge.modeStr| == |pe.modeStr|
    requires ge.uidName == pe.uidName && ge.gidName == pe.gidName && ge.size == pe.size
    requires ge.mtime == pe.mtime && ge.name == pe.name
    ensures GoListing.Line(ge) == PyListing.Render(pe) <==> ge.modeStr == pe.modeStr
  {
    Columns.RowModeIff(ge.modeStr, pe.modeStr, pe.uidName, pe.gidName, pe.size, " " + pe.mtime, pe.name);
  }

  /** Two ten-character strings that agree after their first character are equal exactly when their first characters are. */
  lemma SameTail(t: string, p: string)
    requires |t| == |p| == 10
    requires t[1..] == p[1..]
    ensures t == p <==> t[0] == p[0]
  {
    if t[0] == p[0] {
      assert t == [t[0]] + t[1..] && p == [p[0]] + p[1..];
    }
  }

  /**
   * With the timestamp shown and the same lookups, the Go line and the Python
   * line agree exactly when Go's directory flag and the S_IFDIR bit of the
   * mode field agree and the permission bits are uniform: every other field
   * is rendered alike.
   */
  lemma LinesAgreeIff(env: Env, h: Header)
    ensures GoListing.Line(GoListing.BuildEntry(env, h, true)) == PyListing.Render(PyListing.BuildEntry(env, h))
        <==> h.isDir == IsSet(h.mode, PosixDir) && UniformPerms(h.mode)
  {
    EntriesCorrespond(env, h);
    LineAgreeIff(GoListing.BuildEntry(env, h, true), PyListing.BuildEntry(env, h));
    ModeStringsAgreeIff(h);
  }

  /**
   * With the corrected mode string in the Go entry, the two lines agree
   * exactly when the directory indications agree: the permission letters
   * always match.
   */
  lemma FixedLinesAgreeIff(env: Env, h: Header)
    ensures (var ge := GoListing.BuildEntry(env, h, true);
             GoListing.Line(ge.(modeStr := GoModeFacts.ModeToStrFixed(GoFileMode(h))))
               == PyListing.Render(PyListing.BuildEntry(env, h)))
        <==> h.isDir == IsSet(h.mode, PosixDir)
  {
    var ge := GoListing.BuildEntry(env, h, true);
    var fixed := GoModeFacts.ModeToStrFixed(GoFileMode(h));
    EntriesCorrespond(env, h);
    GoModeFacts.ModeToStrFixedIsIntended(GoFileMode(h));
    LineAgreeIff(ge.(modeStr := fixed), PyListing.BuildEntry(env, h));
    IntendedMatchesPython(h);
    SameTail(fixed, PyMode.ModeToStr(h.mode));
  }

  /**
   * The two corrected definitions print the same string for every header:
   * Go's positional chain and Python's mode string with 'd' taken from the
   * member type.
   */
  lemma CorrectedModesAgree(h: Header)
    ensures PyMode.ModeToStrTyped(h.isDir, h.mode) == GoModeFacts.ModeToStrFixed(GoFileMode(h))
  {
    var g := GoModeFacts.ModeToStrFixed(GoFileMode(h));
    var t := PyMode.ModeToStrTyped(h.isDir, h.mode);
    GoModeFacts.ModeToStrFixedIsIntended(GoFileMode(h));
    GoModeFacts.ModeToStrIntendedBits(GoFileMode(h));
    GoFileModeBits(h);
    IntendedMatchesPython(h);
    assert t[1..] == PyMode.ModeToStr(h.mode)[1..] == g[1..];
    SameTail(g, t);
  }

  /** With both mode strings corrected, the Go line and the Python line agree for every header. */
  lemma CorrectedLinesAgree(env: Env, h: Header)
    ensures GoListing.Line(GoListing.BuildEntry(env, h, true).(modeStr := GoModeFacts.ModeToStrFixed(GoFileMode(h))))
         == PyListing.Render(PyListing.BuildEntry(env, h).(modeStr := PyMode.ModeToStrTyped(h.isDir, h.mode)))
  {
    var fixed := GoModeFacts.ModeToStrFixed(GoFileMode(h));
    var typed := PyMode.ModeToStrTyped(h.isDir, h.mode);
    EntriesCorrespond(env, h);
    CorrectedModesAgree(h);
    LineAgreeIff(GoListing.BuildEntry(env, h, true).(modeStr := fixed), PyListing.BuildEntry(env, h).(modeStr := typed));
  }
}
