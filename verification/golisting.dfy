/**
 * Go's `parseTarToTemplate`: one `TarEntry` per header, in archive order, each
 * rendered through the fixed entry template and the results concatenated.
 */
module GoListing {
  import opened Basics
  import opened Text
  import opened Decimal
  import opened Columns
  import opened Bits
  import opened Archive
  import Identity
  import GoMode
  import GoModeFacts
  import GoConvert

  /** The record the template reads. */
  datatype TarEntry = TarEntry(
    modeStr: string,
    uidName: string,
    gidName: string,
    size: int,
    mtime: string,
    name: string,
    showTimestamp: bool)

  /**
   * The record filled in for one header. `MTime` is only assigned when the
   * timestamp is shown and otherwise keeps Go's zero value, the empty string.
   * The mode string is `modeToStr` as written, whose closed form is
   * `GoModeFacts.GoExpected`.
   */
  function BuildEntry(env: Env, h: Header, showTimestamp: bool): (e: TarEntry)
    ensures |e.modeStr| == 10
    ensures e.modeStr[0] == 'd' <==> h.isDir
    ensures e.modeStr == GoModeFacts.GoExpected(GoFileMode(h))
    ensures e.showTimestamp == showTimestamp
    ensures showTimestamp ==> e.mtime == env.formatTime(h.mtime)
    ensures !showTimestamp ==> e.mtime == ""
    ensures env.users(h.uid).Some? ==> e.uidName == env.users(h.uid).value
    ensures env.groups(h.gid).Some? ==> e.gidName == env.groups(h.gid).value
    ensures env.users(h.uid).None? ==> ParseInt(e.uidName) == Some(h.uid)
    ensures env.groups(h.gid).None? ==> ParseInt(e.gidName) == Some(h.gid)
    ensures e.size == h.size && e.name == h.name
  {
    GoFileModeBits(h);
    GoModeFacts.ModeToStrExact(GoFileMode(h));
    GoConvert.ConvertName(h.name);
    TarEntry(
      GoMode.ModeToStr(GoFileMode(h)),
      Identity.DisplayName(env.users, h.uid),
      Identity.DisplayName(env.groups, h.gid),
      h.size,
      if showTimestamp then env.formatTime(h.mtime) else "",
      GoConvert.Convert(GoConvert.Str(h.name)).value.s,
      showTimestamp)
  }

  /**
   * One entry through the template, without the newline that ends it: the
   * mode string, the owner and group names, the size right-justified in eight
   * columns, the timestamp only when `ShowTimestamp` holds, and the name.
   */
  function Line(e: TarEntry): (s: string)
    ensures Printable(e) ==> '\n' !in s
  {
    Row(e.modeStr, e.uidName, e.gidName, e.size, if e.showTimestamp then " " + e.mtime else "", e.name)
  }

  /**
   * The columns of one line: the owner and group around '/', the size padded
   * to eight, a space and the time only when `ShowTimestamp` holds, and the
   * name last.
   */
  lemma LineColumns(e: TarEntry)
    ensures LaidOut(Line(e), e.modeStr, e.uidName, e.gidName, Pad8(e.size), if e.showTimestamp then " " + e.mtime else "", e.name)
  {
    RowColumns(e.modeStr, e.uidName, e.gidName, e.size, if e.showTimestamp then " " + e.mtime else "", e.name);
  }

  /** No field of the entry contains a line break. */
  predicate Printable(e: TarEntry)
  {
    && '\n' !in e.modeStr && '\n' !in e.uidName && '\n' !in e.gidName
    && '\n' !in e.mtime && '\n' !in e.name
  }

  /** The template output for a sequence of entries: each line followed by a newline. */
  function Render(es: seq<TarEntry>): (out: string)
    ensures |es| == 0 <==> out == ""
  {
    Terminated(Lines(es))
  }

  /** Each line followed by a newline, as the `range` over the entries writes them. */
  function Terminated(ls: seq<string>): (out: string)
    ensures |ls| == 0 <==> out == ""
  {
    if |ls| == 0 then "" else ls[0] + "\n" + Terminated(ls[1..])
  }

  function Lines(es: seq<TarEntry>): (ls: seq<string>)
    ensures |ls| == |es|
    ensures forall i :: 0 <= i < |es| ==> ls[i] == Line(es[i])
  {
    MapSeq(Line, es)
  }

  /**
   * The listing of a sequence of headers in archive order. Opening and
   * decoding the archive are not modelled, and executing the fixed template
   * into a string builder cannot fail, so the result is the text itself.
   */
  function ParseTarToTemplate(env: Env, hs: seq<Header>, showTimestamp: bool): (out: string)
    ensures |hs| == 0 <==> out == ""
  {
    Render(Entries(env, hs, showTimestamp))
  }

  function Entries(env: Env, hs: seq<Header>, showTimestamp: bool): (es: seq<TarEntry>)
    ensures |es| == |hs|
    ensures forall i :: 0 <= i < |hs| ==> es[i] == BuildEntry(env, hs[i], showTimestamp)
  {
    MapSeq((h: Header) => BuildEntry(env, h, showTimestamp), hs)
  }

  /** Rendering distributes over concatenation: entries are rendered independently, in order. */
  lemma RenderAppend(a: seq<TarEntry>, b: seq<TarEntry>)
    ensures Render(a + b) == Render(a) + Render(b)
  {
    MapSeqAppend(Line, a, b);
    TerminatedAppend(Lines(a), Lines(b));
  }

  lemma {:induction false} TerminatedAppend(a: seq<string>, b: seq<string>)
    ensures Terminated(a + b) == Terminated(a) + Terminated(b)
    decreases |a|
  {
    if |a| > 0 {
      assert (a + b)[1..] == a[1..] + b;
      TerminatedAppend(a[1..], b);
    } else {
      assert a + b == b;
    }
  }

  /** The output is the lines joined by newlines with a final newline, i.e. `Join(lines + [""])`. */
  lemma RenderIsJoin(es: seq<TarEntry>)
    ensures Render(es) == Join(Lines(es) + [""], '\n')
  {
    TerminatedIsJoin(Lines(es));
  }

  lemma {:induction false} TerminatedIsJoin(ls: seq<string>)
    ensures Terminated(ls) == Join(ls + [""], '\n')
    decreases |ls|
  {
    if |ls| > 0 {
      TerminatedIsJoin(ls[1..]);
      assert (ls + [""])[1..] == ls[1..] + [""];
    }
  }

  lemma LinesSeparatorFree(es: seq<TarEntry>)
    requires forall i :: 0 <= i < |es| ==> Printable(es[i])
    ensures SeparatorFree(Lines(es) + [""], '\n')
  {
    var parts := Lines(es) + [""];
    forall i | 0 <= i < |parts|
      ensures '\n' !in parts[i]
    {
      if i < |es| {
        assert parts[i] == Line(es[i]);
      }
    }
  }

  /** Splitting the output at newlines gives back every entry's line, in order, and a final empty piece. */
  lemma RenderSplit(es: seq<TarEntry>)
    requires forall i :: 0 <= i < |es| ==> Printable(es[i])
    ensures Split(Render(es), '\n') == Lines(es) + [""]
    ensures Occurrences(Render(es), '\n') == |es|
  {
    RenderIsJoin(es);
    var parts := Lines(es) + [""];
    LinesSeparatorFree(es);
    SplitJoin(parts, '\n');
    JoinSeparatorCount(parts, '\n');
  }

  /** Whatever `MTime` holds, a hidden timestamp does not reach the output. */
  lemma HiddenTimestampIgnored(e: TarEntry, mtime: string)
    requires !e.showTimestamp
    ensures Line(e) == Line(e.(mtime := mtime))
    ensures Line(e) == Row(e.modeStr, e.uidName, e.gidName, e.size, "", e.name)
  {
  }

  /** The fields the template reads are one-line whenever the names and the formatted time are. */
  lemma BuildEntryPrintable(env: Env, h: Header, showTimestamp: bool)
    requires '\n' !in Identity.DisplayName(env.users, h.uid)
    requires '\n' !in Identity.DisplayName(env.groups, h.gid)
    requires '\n' !in env.formatTime(h.mtime)
    requires '\n' !in h.name
    ensures Printable(BuildEntry(env, h, showTimestamp))
  {
    var m := GoMode.ModeToStr(GoFileMode(h));
    GoModeFacts.ModeToStrShape(GoFileMode(h));
    forall i | 0 <= i < 10
      ensures m[i] != '\n'
    {
      if i > 0 {
        assert PermLetters[i - 1] in "rwx";
      }
    }
  }

  /**
   * The listing has one line per header, in archive order, each the template
   * applied to the entry built from that header; the text ends with a newline.
   */
  lemma ListingLines(env: Env, hs: seq<Header>, showTimestamp: bool)
    requires forall i :: 0 <= i < |hs| ==>
      && '\n' !in Identity.DisplayName(env.users, hs[i].uid)
      && '\n' !in Identity.DisplayName(env.groups, hs[i].gid)
      && '\n' !in env.formatTime(hs[i].mtime)
      && '\n' !in hs[i].name
    ensures |Split(ParseTarToTemplate(env, hs, showTimestamp), '\n')| == |hs| + 1
    ensures forall i :: 0 <= i < |hs| ==>
      Split(ParseTarToTemplate(env, hs, showTimestamp), '\n')[i] == Line(BuildEntry(env, hs[i], showTimestamp))
    ensures Split(ParseTarToTemplate(env, hs, showTimestamp), '\n')[|hs|] == ""
  {
    var es := Entries(env, hs, showTimestamp);
    forall i | 0 <= i < |hs|
      ensures Printable(es[i])
    {
      BuildEntryPrintable(env, hs[i], showTimestamp);
    }
    RenderSplit(es);
  }

  /** Listing two archives one after the other is listing their headers together. */
  lemma ListingAppend(env: Env, a: seq<Header>, b: seq<Header>, showTimestamp: bool)
    ensures ParseTarToTemplate(env, a + b, showTimestamp)
         == ParseTarToTemplate(env, a, showTimestamp) + ParseTarToTemplate(env, b, showTimestamp)
  {
    var ea := Entries(env, a, showTimestamp);
    var eb := Entries(env, b, showTimestamp);
    MapSeqAppend((h: Header) => BuildEntry(env, h, showTimestamp), a, b);
    RenderAppend(ea, eb);
  }
}
