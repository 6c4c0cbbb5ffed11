/**
 * Python's `parse_tar_to_template`: one dict per member, in archive order,
 * each rendered through the entry template (which yields no trailing
 * newline), and the rendered entries joined with newlines.
 */
module PyListing {
  import opened Basics
  import opened Text
  import opened Decimal
  import opened Columns
  import opened Bits
  import opened Archive
  import Identity
  import PyMode
  import PyConvert

  /** The dict the template reads. */
  datatype Entry = Entry(
    modeStr: string,
    uidName: string,
    gidName: string,
    size: int,
    mtime: string,
    name: string)

  /** The dict built for one member; the modification time is always formatted. */
  function BuildEntry(env: Env, h: Header): (e: Entry)
    ensures |e.modeStr| == 10
    ensures e.modeStr[0] == 'd' <==> IsSet(h.mode, PosixDir)
    ensures forall i :: 1 <= i < 10 ==>
              e.modeStr[i] == (if PermBit(h.mode, i - 1) then PermLetters[i - 1] else '-')
    ensures e.mtime == env.formatTime(h.mtime)
    ensures env.users(h.uid).Some? ==> e.uidName == env.users(h.uid).value
    ensures env.groups(h.gid).Some? ==> e.gidName == env.groups(h.gid).value
    ensures env.users(h.uid).None? ==> ParseInt(e.uidName) == Some(h.uid)
    ensures env.groups(h.gid).None? ==> ParseInt(e.gidName) == Some(h.gid)
    ensures e.size == h.size && e.name == h.name
  {
    PyMode.ModeToStrBits(h.mode);
    Entry(
      PyMode.ModeToStr(h.mode),
      Identity.DisplayName(env.users, h.uid),
      Identity.DisplayName(env.groups, h.gid),
      h.size,
      env.formatTime(h.mtime),
      PyConvert.Convert(env.decode, PyConvert.Str(h.name)).s)
  }

  /** No field of the entry contains a line break. */
  predicate Printable(e: Entry)
  {
    && '\n' !in e.modeStr && '\n' !in e.uidName && '\n' !in e.gidName
    && '\n' !in e.mtime && '\n' !in e.name
  }

  /**
   * One rendered entry: the template's leading newline is trimmed by `{{-`
   * and its trailing newline dropped by the template engine, so the text is a
   * single line with no newline of its own.
   */
  function Render(e: Entry): (s: string)
    ensures Printable(e) ==> '\n' !in s
  {
    Row(e.modeStr, e.uidName, e.gidName, e.size, " " + e.mtime, e.name)
  }

  /** The columns of one rendered entry; the time column is always present. */
  lemma RenderColumns(e: Entry)
    ensures LaidOut(Render(e), e.modeStr, e.uidName, e.gidName, Pad8(e.size), " " + e.mtime, e.name)
  {
    RowColumns(e.modeStr, e.uidName, e.gidName, e.size, " " + e.mtime, e.name);
  }

  function Lines(es: seq<Entry>): (ls: seq<string>)
    ensures |ls| == |es|
    ensures forall i :: 0 <= i < |es| ==> ls[i] == Render(es[i])
  {
    MapSeq(Render, es)
  }

  function Entries(env: Env, hs: seq<Header>): (es: seq<Entry>)
    ensures |es| == |hs|
    ensures forall i :: 0 <= i < |hs| ==> es[i] == BuildEntry(env, hs[i])
  {
    MapSeq((h: Header) => BuildEntry(env, h), hs)
  }

  /** The listing: `"\n".join` of the rendered entries. Opening and decoding the archive are not modelled. */
  function ParseTarToTemplate(env: Env, hs: seq<Header>): (out: string)
    ensures |hs| == 0 ==> out == ""
  {
    Join(Lines(Entries(env, hs)), '\n')
  }

  lemma LinesSeparatorFree(es: seq<Entry>)
    requires forall i :: 0 <= i < |es| ==> Printable(es[i])
    ensures SeparatorFree(Lines(es), '\n')
  {
    var ls := Lines(es);
    forall i | 0 <= i < |ls|
      ensures '\n' !in ls[i]
    {
      assert ls[i] == Render(es[i]);
    }
  }

  lemma BuildEntryPrintable(env: Env, h: Header)
    requires '\n' !in Identity.DisplayName(env.users, h.uid)
    requires '\n' !in Identity.DisplayName(env.groups, h.gid)
    requires '\n' !in env.formatTime(h.mtime)
    requires '\n' !in h.name
    ensures Printable(BuildEntry(env, h))
  {
    var m := PyMode.ModeToStr(h.mode);
    PyMode.ModeToStrBits(h.mode);
    forall i | 0 <= i < 10
      ensures m[i] != '\n'
    {
      if i > 0 {
        assert PermLetters[i - 1] in "rwx";
      }
    }
  }

  /**
   * A non-empty listing has exactly one line per member, in archive order,
   * separated by newlines and with none after the last: k members give k - 1
   * newlines.
   */
  lemma ListingLines(env: Env, hs: seq<Header>)
    requires |hs| >= 1
    requires forall i :: 0 <= i < |hs| ==>
      && '\n' !in Identity.DisplayName(env.users, hs[i].uid)
      && '\n' !in Identity.DisplayName(env.groups, hs[i].gid)
      && '\n' !in env.formatTime(hs[i].mtime)
      && '\n' !in hs[i].name
    ensures Split(ParseTarToTemplate(env, hs), '\n') == Lines(Entries(env, hs))
    ensures forall i :: 0 <= i < |hs| ==> Split(ParseTarToTemplate(env, hs), '\n')[i] == Render(BuildEntry(env, hs[i]))
    ensures Occurrences(ParseTarToTemplate(env, hs), '\n') == |hs| - 1
  {
    var es := Entries(env, hs);
    forall i | 0 <= i < |hs|
      ensures Printable(es[i])
    {
      BuildEntryPrintable(env, hs[i]);
    }
    LinesSeparatorFree(es);
    SplitJoin(Lines(es), '\n');
    JoinSeparatorCount(Lines(es), '\n');
  }

  /** Listing two non-empty runs of members one after the other puts one newline between their listings. */
  lemma ListingAppend(env: Env, a: seq<Header>, b: seq<Header>)
    requires |a| >= 1 && |b| >= 1
    ensures ParseTarToTemplate(env, a + b) == ParseTarToTemplate(env, a) + "\n" + ParseTarToTemplate(env, b)
  {
    var ea := Entries(env, a);
    var eb := Entries(env, b);
    MapSeqAppend((h: Header) => BuildEntry(env, h), a, b);
    MapSeqAppend(Render, ea, eb);
    var la := Lines(ea);
    var lb := Lines(eb);
    JoinAppend(la, lb, '\n');
  }
}
