/**
 * The column layout both entry templates share: the mode string, one space,
 * `owner/group`, two spaces, the size right-justified in eight columns, the
 * timestamp column (a space and the time, or nothing), one space, the name.
 */
module Columns {
  import opened Decimal

  /** Everything after the mode string, with the size already padded. */
  function Tail(uidName: string, gidName: string, size: string, time: string, name: string): (t: string)
    ensures |t| > 0 && t[0] == ' '
  {
    " " + uidName + "/" + gidName + "  " + size + time + " " + name
  }

  /** The columns after the mode string stay on one line when the names, the size and the time do. */
  lemma TailSingleLine(uidName: string, gidName: string, size: string, time: string, name: string)
    ensures ('\n' !in uidName && '\n' !in gidName && '\n' !in size && '\n' !in time && '\n' !in name)
            ==> '\n' !in Tail(uidName, gidName, size, time, name)
  {
    var owner := " " + uidName + "/" + gidName;
    var sized := owner + "  " + size;
    assert Tail(uidName, gidName, size, time, name) == sized + time + " " + name;
  }

  function Row(modeStr: string, uidName: string, gidName: string, size: int, time: string, name: string): (s: string)
    ensures |s| > |modeStr| && s[..|modeStr|] == modeStr && s[|modeStr|] == ' '
    ensures ('\n' !in modeStr && '\n' !in uidName && '\n' !in gidName && '\n' !in time && '\n' !in name)
            ==> '\n' !in s
  {
    var t := Tail(uidName, gidName, Pad8(size), time, name);
    Pad8SingleLine(size);
    TailSingleLine(uidName, gidName, Pad8(size), time, name);
    assert (modeStr + t)[..|modeStr|] == modeStr;
    modeStr + t
  }

  /**
   * `s` is laid out in columns: the mode string, a space, the owner, '/', the
   * group, two spaces, the padded size, the timestamp column, and a space
   * before the name, which ends the line.
   */
  predicate LaidOut(s: string, modeStr: string, uidName: string, gidName: string, size: string, time: string, name: string)
  {
    var o := |modeStr| + 1;
    var g := o + |uidName| + 1;
    var z := g + |gidName| + 2;
    var t := z + |size|;
    && |s| == t + |time| + 1 + |name|
    && s[..|modeStr|] == modeStr && s[|modeStr|] == ' '
    && s[o..o + |uidName|] == uidName && s[o + |uidName|] == '/'
    && s[g..g + |gidName|] == gidName && s[g + |gidName|..z] == "  "
    && s[z..t] == size
    && s[t..t + |time|] == time
    && s[t + |time|..] == " " + name
  }

  /**
   * Where each column of a row sits; the size column is exactly eight wide
   * for a size from 0 to 99999999.
   */
  lemma RowColumns(modeStr: string, uidName: string, gidName: string, size: int, time: string, name: string)
    ensures LaidOut(Row(modeStr, uidName, gidName, size, time, name), modeStr, uidName, gidName, Pad8(size), time, name)
    ensures 0 <= size < 100000000 ==> |Pad8(size)| == 8
  {
    Layout(modeStr, uidName, gidName, Pad8(size), time, name);
    if 0 <= size < 100000000 {
      Pad8Width(size);
    }
  }

  /** The layout fixes the line: a row is the only text laid out in its columns. */
  lemma RowLaidOutIff(s: string, modeStr: string, uidName: string, gidName: string, size: int, time: string, name: string)
    ensures s == Row(modeStr, uidName, gidName, size, time, name)
            <==> LaidOut(s, modeStr, uidName, gidName, Pad8(size), time, name)
  {
    var r := Row(modeStr, uidName, gidName, size, time, name);
    RowColumns(modeStr, uidName, gidName, size, time, name);
    if LaidOut(s, modeStr, uidName, gidName, Pad8(size), time, name) {
      LaidOutUnique(s, r, modeStr, uidName, gidName, Pad8(size), time, name);
    }
  }

  /** Two texts laid out in the same columns are equal. */
  lemma LaidOutUnique(s: string, r: string, modeStr: string, uidName: string, gidName: string, size: string, time: string, name: string)
    requires LaidOut(s, modeStr, uidName, gidName, size, time, name)
    requires LaidOut(r, modeStr, uidName, gidName, size, time, name)
    ensures s == r
  {
    var o := |modeStr| + 1;
    var g := o + |uidName| + 1;
    var z := g + |gidName| + 2;
    var t := z + |size|;
    var n := t + |time|;
    forall i | 0 <= i < |s|
      ensures s[i] == r[i]
    {
      if i < |modeStr| {
        assert s[i] == s[..|modeStr|][i] && r[i] == r[..|modeStr|][i];
      } else if i == |modeStr| || i == o + |uidName| {
      } else if i < o + |uidName| {
        assert s[i] == s[o..o + |uidName|][i - o] && r[i] == r[o..o + |uidName|][i - o];
      } else if i < g + |gidName| {
        assert s[i] == s[g..g + |gidName|][i - g] && r[i] == r[g..g + |gidName|][i - g];
      } else if i < z {
        assert s[i] == s[g + |gidName|..z][i - g - |gidName|] && r[i] == r[g + |gidName|..z][i - g - |gidName|];
      } else if i < t {
        assert s[i] == s[z..t][i - z] && r[i] == r[z..t][i - z];
      } else if i < n {
        assert s[i] == s[t..n][i - t] && r[i] == r[t..n][i - t];
      } else {
        assert s[i] == s[n..][i - n] && r[i] == r[n..][i - n];
      }
    }
  }

  /** The column offsets of a row, with the padded size taken as given text. */
  lemma Layout(m: string, u: string, g: string, p: string, time: string, name: string)
    ensures LaidOut(m + Tail(u, g, p, time, name), m, u, g, p, time, name)
  {
    var s := m + Tail(u, g, p, time, name);
    OwnerColumn(m, u, g, p, time, name);
    GroupColumn(m, u, g, p, time, name);
    SizeColumn(m, u, g, p, time, name);
    NameColumn(m, u, g, p, time, name);
    assert s[..|m|] == m && s[|m|] == ' ';
  }

  lemma OwnerColumn(m: string, u: string, g: string, p: string, time: string, name: string)
    ensures var s := m + Tail(u, g, p, time, name);
            s[|m| + 1..|m| + 1 + |u|] == u && s[|m| + 1 + |u|] == '/'
  {
    var r := "/" + g + "  " + p + time + " " + name;
    assert m + Tail(u, g, p, time, name) == (m + " ") + u + r;
    Cut(m + " ", u, r);
  }

  lemma GroupColumn(m: string, u: string, g: string, p: string, time: string, name: string)
    ensures var s := m + Tail(u, g, p, time, name);
            var o := |m| + |u| + 2;
            s[o..o + |g|] == g && s[o + |g|..o + |g| + 2] == "  "
  {
    var r := p + time + " " + name;
    assert m + Tail(u, g, p, time, name) == (m + " " + u + "/") + g + ("  " + r);
    Cut(m + " " + u + "/", g, "  " + r);
    Cut(m + " " + u + "/" + g, "  ", r);
    assert m + Tail(u, g, p, time, name) == (m + " " + u + "/" + g) + "  " + r;
  }

  lemma SizeColumn(m: string, u: string, g: string, p: string, time: string, name: string)
    ensures var s := m + Tail(u, g, p, time, name);
            var z := |m| + |u| + |g| + 4;
            s[z..z + |p|] == p
  {
    var r := time + " " + name;
    assert m + Tail(u, g, p, time, name) == (m + " " + u + "/" + g + "  ") + p + r;
    Cut(m + " " + u + "/" + g + "  ", p, r);
  }

  lemma NameColumn(m: string, u: string, g: string, p: string, time: string, name: string)
    ensures var s := m + Tail(u, g, p, time, name);
            var t := |m| + |u| + |g| + 4 + |p|;
            && |s| == t + |time| + 1 + |name|
            && s[t..t + |time|] == time && s[t + |time|..] == " " + name
  {
    var x := m + " " + u + "/" + g + "  " + p;
    assert m + Tail(u, g, p, time, name) == x + time + (" " + name);
    Cut(x, time, " " + name);
  }

  /** A three-part text splits back into its parts at their lengths. */
  lemma Cut(x: string, y: string, z: string)
    ensures (x + y + z)[..|x|] == x
    ensures (x + y + z)[|x|..|x| + |y|] == y
    ensures (x + y + z)[|x| + |y|..] == z
  {
  }

  /** Rows that agree in every other column are equal exactly when their equally wide mode strings are. */
  lemma RowModeIff(a: string, b: string, uidName: string, gidName: string, size: int, time: string, name: string)
    requires |a| == |b|
    ensures Row(a, uidName, gidName, size, time, name) == Row(b, uidName, gidName, size, time, name) <==> a == b
  {
    var t := Tail(uidName, gidName, Pad8(size), time, name);
    if a + t == b + t {
      assert (a + t)[..|a|] == a;
      assert (b + t)[..|b|] == b;
    }
  }
}
