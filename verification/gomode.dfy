/**
 * Go's `modeToStr`: it starts from "drwxrwxrwx" and, for every clear bit,
 * calls `strings.Replace(s, letter, "-", n)`. The count `n` limits how many
 * occurrences of the letter that are still present get replaced, it does not
 * select a position, so clearing an owner bit also blanks the group letter and
 * clearing a group or other bit blanks every remaining copy of the letter.
 */
module GoMode {
  import opened Bits
  import opened GoStrings

  /** One `if mode&bit == 0 { s = strings.Replace(s, letter, "-", n) }` step. */
  function Blank(s: string, bitSet: bool, c: char, n: int): (r: string)
    ensures |r| == |s|
  {
    if !bitSet then Replace(s, c, '-', n) else s
  }

  function ModeToStr(mode: FileMode): (r: string)
    ensures |r| == 10
  {
    var m := mode as int;
    var s0 := "drwxrwxrwx";
    var s1 := Blank(s0, IsSet(m, ModeDir), 'd', 1);
    var s4 := ClassBlank(s1, IsSet(m, 0x100), IsSet(m, 0x80), IsSet(m, 0x40), 2);
    var s7 := ClassBlank(s4, IsSet(m, 0x20), IsSet(m, 0x10), IsSet(m, 0x8), 5);
    ClassBlank(s7, IsSet(m, 0x4), IsSet(m, 0x2), IsSet(m, 0x1), 8)
  }

  /** The r, w and x steps of one permission class, which share the count `n`. */
  function ClassBlank(s: string, r: bool, w: bool, x: bool, n: int): (t: string)
    ensures |t| == |s|
  {
    Blank(Blank(Blank(s, r, 'r', n), w, 'w', n), x, 'x', n)
  }

  /*
   * An abstract view of the ten-character string: which letters are still
   * shown. Each Replace call of the chain acts on this view in a way that
   * can be computed without walking strings.
   */

  datatype Letter = R | W | X

  function Char(l: Letter): char
  {
    match l
    case R => 'r'
    case W => 'w'
    case X => 'x'
  }

  /** Which of r, w, x one permission class (owner, group, other) still shows. */
  datatype Triad = Triad(r: bool, w: bool, x: bool)
  {
    function Shows(l: Letter): bool
    {
      match l
      case R => r
      case W => w
      case X => x
    }

    function Hide(l: Letter): (t: Triad)
      ensures !t.Shows(l)
      ensures forall o :: o != l ==> t.Shows(o) == Shows(o)
    {
      match l
      case R => this.(r := false)
      case W => this.(w := false)
      case X => this.(x := false)
    }

    function Str(): string
    {
      [if r then 'r' else '-', if w then 'w' else '-', if x then 'x' else '-']
    }
  }

  datatype Perm = Perm(dir: bool, user: Triad, group: Triad, other: Triad)
  {
    function Str(): string
    {
      [if dir then 'd' else '-'] + (user.Str() + (group.Str() + other.Str()))
    }
  }

  /** The budget after one class was visited: one replacement spent if its letter was shown. */
  function Spend(n: int, shown: bool): int
  {
    if shown && n != 0 then n - 1 else n
  }

  function HideIf(t: Triad, l: Letter, n: int): Triad
  {
    if t.Shows(l) && n != 0 then t.Hide(l) else t
  }

  /** The view after `Replace(s, letter, "-", n)`: the first `n` shown copies, in class order, are hidden. */
  function HideFirst(p: Perm, l: Letter, n: int): Perm
  {
    var n1 := Spend(n, p.user.Shows(l));
    var n2 := Spend(n1, p.group.Shows(l));
    Perm(p.dir, HideIf(p.user, l, n), HideIf(p.group, l, n1), HideIf(p.other, l, n2))
  }

  lemma ReplaceCons(x: char, t: string, c: char, d: char, n: int)
    requires n != 0
    ensures Replace([x] + t, c, d, n) ==
            if x == c then [d] + Replace(t, c, d, n - 1) else [x] + Replace(t, c, d, n)
    ensures Remaining([x] + t, c, n) ==
            if x == c then Remaining(t, c, n - 1) else Remaining(t, c, n)
  {
    assert ([x] + t)[1..] == t;
  }

  lemma Cons3(a: char, b: char, e: char, rest: string)
    ensures [a, b, e] + rest == [a] + ([b] + ([e] + rest))
  {
  }

  /** Replacing over the three characters `[a, b, e]` and what follows them, where only `a` may match. */
  lemma ReplaceFirstOfThree(a: char, b: char, e: char, rest: string, c: char, n: int)
    requires b != c && e != c
    ensures Replace([a, b, e] + rest, c, '-', n) ==
            [if a == c && n != 0 then '-' else a, b, e] +
            Replace(rest, c, '-', if a == c && n != 0 then n - 1 else n)
  {
    var n1 := if a == c && n != 0 then n - 1 else n;
    if n == 0 {
      ReplaceZero([a, b, e] + rest, c, '-');
      ReplaceZero(rest, c, '-');
    } else {
      Cons3(a, b, e, rest);
      ReplaceCons(a, [b] + ([e] + rest), c, '-', n);
      if n1 == 0 {
        ReplaceZero([b] + ([e] + rest), c, '-');
        ReplaceZero(rest, c, '-');
      } else {
        ReplaceCons(b, [e] + rest, c, '-', n1);
        ReplaceCons(e, rest, c, '-', n1);
      }
    }
  }

  /** Replacing over the three characters `[a, b, e]` and what follows them, where only `b` may match. */
  lemma ReplaceSecondOfThree(a: char, b: char, e: char, rest: string, c: char, n: int)
    requires a != c && e != c
    ensures Replace([a, b, e] + rest, c, '-', n) ==
            [a, if b == c && n != 0 then '-' else b, e] +
            Replace(rest, c, '-', if b == c && n != 0 then n - 1 else n)
  {
    var n1 := if b == c && n != 0 then n - 1 else n;
    if n == 0 {
      ReplaceZero([a, b, e] + rest, c, '-');
      ReplaceZero(rest, c, '-');
    } else {
      Cons3(a, b, e, rest);
      ReplaceCons(a, [b] + ([e] + rest), c, '-', n);
      ReplaceCons(b, [e] + rest, c, '-', n);
      if n1 == 0 {
        ReplaceZero([e] + rest, c, '-');
        ReplaceZero(rest, c, '-');
      } else {
        ReplaceCons(e, rest, c, '-', n1);
      }
    }
  }

  /** Replacing over the three characters `[a, b, e]` and what follows them, where only `e` may match. */
  lemma ReplaceThirdOfThree(a: char, b: char, e: char, rest: string, c: char, n: int)
    requires a != c && b != c
    ensures Replace([a, b, e] + rest, c, '-', n) ==
            [a, b, if e == c && n != 0 then '-' else e] +
            Replace(rest, c, '-', if e == c && n != 0 then n - 1 else n)
  {
    if n == 0 {
      ReplaceZero([a, b, e] + rest, c, '-');
      ReplaceZero(rest, c, '-');
    } else {
      var e' := if e == c then '-' else e;
      var r := Replace(rest, c, '-', if e == c then n - 1 else n);
      Cons3(a, b, e, rest);
      Cons3(a, b, e', r);
      ReplaceCons(e, rest, c, '-', n);
      ReplaceCons(b, [e] + rest, c, '-', n);
      ReplaceCons(a, [b] + ([e] + rest), c, '-', n);
    }
  }

  /** Replacing over one class and what follows it. */
  lemma TriadReplace(t: Triad, rest: string, l: Letter, n: int)
    ensures Replace(t.Str() + rest, Char(l), '-', n) ==
            HideIf(t, l, n).Str() + Replace(rest, Char(l), '-', Spend(n, t.Shows(l)))
  {
    var a := if t.r then 'r' else '-';
    var b := if t.w then 'w' else '-';
    var e := if t.x then 'x' else '-';
    match l
    case R => ReplaceFirstOfThree(a, b, e, rest, 'r', n);
    case W => ReplaceSecondOfThree(a, b, e, rest, 'w', n);
    case X => ReplaceThirdOfThree(a, b, e, rest, 'x', n);
  }

  lemma PermReplace(p: Perm, l: Letter, n: int)
    ensures Replace(p.Str(), Char(l), '-', n) == HideFirst(p, l, n).Str()
  {
    var c := Char(l);
    var x := if p.dir then 'd' else '-';
    var u := p.user.Str();
    var g := p.group.Str();
    var o := p.other.Str();
    var q := HideFirst(p, l, n);
    assert p.Str() == [x] + (u + (g + o));
    assert q.Str() == [x] + (q.user.Str() + (q.group.Str() + q.other.Str()));
    if n == 0 {
      ReplaceZero(p.Str(), c, '-');
    } else {
      var n1 := Spend(n, p.user.Shows(l));
      var n2 := Spend(n1, p.group.Shows(l));
      var n3 := Spend(n2, p.other.Shows(l));
      ReplaceCons(x, u + (g + o), c, '-', n);
      TriadReplace(p.user, g + o, l, n);
      TriadReplace(p.group, o, l, n1);
      TriadReplace(p.other, [], l, n2);
      assert o + [] == o;
      assert q.other.Str() + [] == q.other.Str();
      calc {
        Replace(p.Str(), c, '-', n);
        [x] + Replace(u + (g + o), c, '-', n);
        [x] + (q.user.Str() + Replace(g + o, c, '-', n1));
        [x] + (q.user.Str() + (q.group.Str() + Replace(o, c, '-', n2)));
        [x] + (q.user.Str() + (q.group.Str() + (q.other.Str() + Replace([], c, '-', n3))));
      }
    }
  }

  lemma PermReplaceDir(p: Perm)
    ensures Replace(p.Str(), 'd', '-', 1) == p.(dir := false).Str()
  {
    var s := p.Str();
    var rest := s[1..];
    assert s == [s[0]] + rest;
    assert 'd' !in rest;
    ReplaceUntouched(rest, 'd', '-', 0);
    if p.dir {
      assert Replace(s, 'd', '-', 1) == ['-'] + Replace(rest, 'd', '-', 0);
    } else {
      assert Replace(s, 'd', '-', 1) == [s[0]] + Replace(rest, 'd', '-', 1);
      ReplaceUntouched(rest, 'd', '-', 1);
    }
  }

  lemma ReplaceUntouched(s: string, c: char, d: char, n: int)
    requires c !in s
    ensures Replace(s, c, d, n) == s
  {
  }

  /** Applies one step of the chain to the view. */
  function Step(p: Perm, keep: bool, l: Letter, n: int): Perm
  {
    if keep then p else HideFirst(p, l, n)
  }

  /** The chain of `modeToStr` run on the view. */
  function Chain(mode: FileMode): Perm
  {
    var m := mode as int;
    var all := Triad(true, true, true);
    var p0 := Perm(true, all, all, all);
    var p1 := if !IsSet(m, ModeDir) then p0.(dir := false) else p0;
    var p4 := ClassSteps(p1, IsSet(m, 0x100), IsSet(m, 0x80), IsSet(m, 0x40), 2);
    var p7 := ClassSteps(p4, IsSet(m, 0x20), IsSet(m, 0x10), IsSet(m, 0x8), 5);
    ClassSteps(p7, IsSet(m, 0x4), IsSet(m, 0x2), IsSet(m, 0x1), 8)
  }

  lemma StepReplace(p: Perm, keep: bool, l: Letter, n: int)
    ensures Step(p, keep, l, n).Str() == Blank(p.Str(), keep, Char(l), n)
  {
    if !keep {
      PermReplace(p, l, n);
    }
  }

  /** The three steps that act on one permission class (r, then w, then x, with the same count). */
  function ClassSteps(p: Perm, r: bool, w: bool, x: bool, n: int): Perm
  {
    Step(Step(Step(p, r, R, n), w, W, n), x, X, n)
  }

  lemma ClassStepsReplace(p: Perm, r: bool, w: bool, x: bool, n: int)
    ensures ClassSteps(p, r, w, x, n).Str() ==
            ClassBlank(p.Str(), r, w, x, n)
  {
    StepReplace(p, r, R, n);
    var p1 := Step(p, r, R, n);
    StepReplace(p1, w, W, n);
    StepReplace(Step(p1, w, W, n), x, X, n);
  }

  /** The nine permission steps, for any view and its string. */
  lemma PermissionStepsReplace(p1: Perm, m: int)
    ensures ClassSteps(ClassSteps(ClassSteps(p1, IsSet(m, 0x100), IsSet(m, 0x80), IsSet(m, 0x40), 2),
                                  IsSet(m, 0x20), IsSet(m, 0x10), IsSet(m, 0x8), 5),
                       IsSet(m, 0x4), IsSet(m, 0x2), IsSet(m, 0x1), 8).Str() ==
            ClassBlank(ClassBlank(ClassBlank(p1.Str(), IsSet(m, 0x100), IsSet(m, 0x80), IsSet(m, 0x40), 2),
                                  IsSet(m, 0x20), IsSet(m, 0x10), IsSet(m, 0x8), 5),
                       IsSet(m, 0x4), IsSet(m, 0x2), IsSet(m, 0x1), 8)
  {
    ThreeClassesReplace(p1, IsSet(m, 0x100), IsSet(m, 0x80), IsSet(m, 0x40),
                        IsSet(m, 0x20), IsSet(m, 0x10), IsSet(m, 0x8),
                        IsSet(m, 0x4), IsSet(m, 0x2), IsSet(m, 0x1));
  }

  lemma ThreeClassesReplace(p1: Perm, r1: bool, w1: bool, x1: bool, r2: bool, w2: bool, x2: bool,
                            r3: bool, w3: bool, x3: bool)
    ensures ClassSteps(ClassSteps(ClassSteps(p1, r1, w1, x1, 2), r2, w2, x2, 5), r3, w3, x3, 8).Str() ==
            ClassBlank(ClassBlank(ClassBlank(p1.Str(), r1, w1, x1, 2), r2, w2, x2, 5), r3, w3, x3, 8)
  {
    var p4 := ClassSteps(p1, r1, w1, x1, 2);
    ClassStepsReplace(p1, r1, w1, x1, 2);
    var p7 := ClassSteps(p4, r2, w2, x2, 5);
    ClassStepsReplace(p4, r2, w2, x2, 5);
    ClassStepsReplace(p7, r3, w3, x3, 8);
  }

  lemma {:induction false} ModeToStrIsChain(mode: FileMode)
    ensures ModeToStr(mode) == Chain(mode).Str()
  {
    var m := mode as int;
    var all := Triad(true, true, true);
    var p0 := Perm(true, all, all, all);
    assert p0.Str() == "drwxrwxrwx";
    PermReplaceDir(p0);
    var p1 := if !IsSet(m, ModeDir) then p0.(dir := false) else p0;
    assert p1.Str() == Blank("drwxrwxrwx", IsSet(m, ModeDir), 'd', 1);
    PermissionStepsReplace(p1, m);
  }
}

module GoModeFacts {
  import opened Bits
  import opened GoStrings
  import opened GoMode


  /** Which classes (owner, group, other) still show one letter. */
  datatype Column = Column(user: bool, group: bool, other: bool)

  function ColumnOf(p: Perm, l: Letter): Column
  {
    Column(p.user.Shows(l), p.group.Shows(l), p.other.Shows(l))
  }

  /** One step of the chain seen on the column of its own letter. */
  function ColumnStep(c: Column, keep: bool, n: int): Column
  {
    if keep then c
    else
      var n1 := Spend(n, c.user);
      var n2 := Spend(n1, c.group);
      Column(c.user && n == 0, c.group && n1 == 0, c.other && n2 == 0)
  }

  function Pick(l: Letter, r: bool, w: bool, x: bool): bool
  {
    match l
    case R => r
    case W => w
    case X => x
  }

  lemma StepColumn(p: Perm, keep: bool, l: Letter, n: int, k: Letter)
    ensures ColumnOf(Step(p, keep, l, n), k) ==
            if k == l then ColumnStep(ColumnOf(p, k), keep, n) else ColumnOf(p, k)
  {
  }

  lemma ClassStepsColumn(p: Perm, r: bool, w: bool, x: bool, n: int, k: Letter)
    ensures ColumnOf(ClassSteps(p, r, w, x, n), k) == ColumnStep(ColumnOf(p, k), Pick(k, r, w, x), n)
  {
    var p1 := Step(p, r, R, n);
    var p2 := Step(p1, w, W, n);
    StepColumn(p, r, R, n, k);
    StepColumn(p1, w, W, n, k);
    StepColumn(p2, x, X, n, k);
  }

  /** The column of a letter after its owner (count 2), group (5) and other (8) steps. */
  lemma ColumnChain(a: bool, b: bool, c: bool)
    ensures ColumnStep(ColumnStep(ColumnStep(Column(true, true, true), a, 2), b, 5), c, 8) ==
            Column(a && b && c, a && b && c, b && c)
  {
  }

  lemma PermissionStepsColumn(p1: Perm, m: int, k: Letter)
    requires ColumnOf(p1, k) == Column(true, true, true)
    ensures ColumnOf(ClassSteps(ClassSteps(ClassSteps(p1, IsSet(m, 0x100), IsSet(m, 0x80), IsSet(m, 0x40), 2),
                                           IsSet(m, 0x20), IsSet(m, 0x10), IsSet(m, 0x8), 5),
                                IsSet(m, 0x4), IsSet(m, 0x2), IsSet(m, 0x1), 8), k) ==
            var own := Pick(k, IsSet(m, 0x100), IsSet(m, 0x80), IsSet(m, 0x40));
            var grp := Pick(k, IsSet(m, 0x20), IsSet(m, 0x10), IsSet(m, 0x8));
            var oth := Pick(k, IsSet(m, 0x4), IsSet(m, 0x2), IsSet(m, 0x1));
            Column(own && grp && oth, own && grp && oth, grp && oth)
  {
    var p4 := ClassSteps(p1, IsSet(m, 0x100), IsSet(m, 0x80), IsSet(m, 0x40), 2);
    var p7 := ClassSteps(p4, IsSet(m, 0x20), IsSet(m, 0x10), IsSet(m, 0x8), 5);
    ClassStepsColumn(p1, IsSet(m, 0x100), IsSet(m, 0x80), IsSet(m, 0x40), 2, k);
    ClassStepsColumn(p4, IsSet(m, 0x20), IsSet(m, 0x10), IsSet(m, 0x8), 5, k);
    ClassStepsColumn(p7, IsSet(m, 0x4), IsSet(m, 0x2), IsSet(m, 0x1), 8, k);
    ColumnChain(Pick(k, IsSet(m, 0x100), IsSet(m, 0x80), IsSet(m, 0x40)),
                Pick(k, IsSet(m, 0x20), IsSet(m, 0x10), IsSet(m, 0x8)),
                Pick(k, IsSet(m, 0x4), IsSet(m, 0x2), IsSet(m, 0x1)));
  }

  /** Column k of the final view: owner and group survive iff all three bits are set, other iff group and other are. */
  lemma ChainColumn(mode: FileMode, k: Letter)
    ensures ColumnOf(Chain(mode), k) ==
            var own := Pick(k, IsSet(mode as int, 0x100), IsSet(mode as int, 0x80), IsSet(mode as int, 0x40));
            var grp := Pick(k, IsSet(mode as int, 0x20), IsSet(mode as int, 0x10), IsSet(mode as int, 0x8));
            var oth := Pick(k, IsSet(mode as int, 0x4), IsSet(mode as int, 0x2), IsSet(mode as int, 0x1));
            Column(own && grp && oth, own && grp && oth, grp && oth)
  {
    var m := mode as int;
    var all := Triad(true, true, true);
    var p0 := Perm(true, all, all, all);
    var p1 := if !IsSet(m, ModeDir) then p0.(dir := false) else p0;
    PermissionStepsColumn(p1, m, k);
    assert Chain(mode) == ClassSteps(ClassSteps(ClassSteps(p1, IsSet(m, 0x100), IsSet(m, 0x80), IsSet(m, 0x40), 2),
                                                IsSet(m, 0x20), IsSet(m, 0x10), IsSet(m, 0x8), 5),
                                     IsSet(m, 0x4), IsSet(m, 0x2), IsSet(m, 0x1), 8);
  }

  lemma PermBitMasks(mode: FileMode)
    ensures PermBit(mode as int, 0) == IsSet(mode as int, 0x100)
    ensures PermBit(mode as int, 1) == IsSet(mode as int, 0x80)
    ensures PermBit(mode as int, 2) == IsSet(mode as int, 0x40)
    ensures PermBit(mode as int, 3) == IsSet(mode as int, 0x20)
    ensures PermBit(mode as int, 4) == IsSet(mode as int, 0x10)
    ensures PermBit(mode as int, 5) == IsSet(mode as int, 0x8)
    ensures PermBit(mode as int, 6) == IsSet(mode as int, 0x4)
    ensures PermBit(mode as int, 7) == IsSet(mode as int, 0x2)
    ensures PermBit(mode as int, 8) == IsSet(mode as int, 0x1)
  {
  }

  lemma ChainDir(mode: FileMode)
    ensures Chain(mode).dir == IsSet(mode as int, ModeDir)
  {
  }

  /**
   * What Go's modeToStr prints, in closed form. Position 0 tells whether
   * ModeDir is set. For each letter, the owner and group copies survive only
   * when the owner, group and other bits of that letter are all set; the other
   * copy survives when the group and other bits are.
   */
  function GoExpected(mode: FileMode): string
  {
    var b := PermBits(mode as int);
    [if IsSet(mode as int, ModeDir) then 'd' else '-',
     if b[0] && b[3] && b[6] then 'r' else '-',
     if b[1] && b[4] && b[7] then 'w' else '-',
     if b[2] && b[5] && b[8] then 'x' else '-',
     if b[0] && b[3] && b[6] then 'r' else '-',
     if b[1] && b[4] && b[7] then 'w' else '-',
     if b[2] && b[5] && b[8] then 'x' else '-',
     if b[3] && b[6] then 'r' else '-',
     if b[4] && b[7] then 'w' else '-',
     if b[5] && b[8] then 'x' else '-']
  }

  lemma PermStrDisplay(p: Perm)
    ensures p.Str() ==
            [if p.dir then 'd' else '-',
             if p.user.r then 'r' else '-', if p.user.w then 'w' else '-', if p.user.x then 'x' else '-',
             if p.group.r then 'r' else '-', if p.group.w then 'w' else '-', if p.group.x then 'x' else '-',
             if p.other.r then 'r' else '-', if p.other.w then 'w' else '-', if p.other.x then 'x' else '-']
  {
    TenChars(if p.dir then 'd' else '-', p.user.Str(), p.group.Str(), p.other.Str());
  }

  lemma TenChars(x: char, u: string, g: string, o: string)
    requires |u| == 3 && |g| == 3 && |o| == 3
    ensures [x] + (u + (g + o)) == [x, u[0], u[1], u[2], g[0], g[1], g[2], o[0], o[1], o[2]]
  {
    var s := [x] + (u + (g + o));
    assert s[1] == u[0] && s[2] == u[1] && s[3] == u[2];
    assert s[4] == g[0] && s[5] == g[1] && s[6] == g[2];
    assert s[7] == o[0] && s[8] == o[1] && s[9] == o[2];
  }

  lemma ViewExpected(p: Perm, mode: FileMode)
    requires p.dir == IsSet(mode as int, ModeDir)
    requires forall k: Letter :: ColumnOf(p, k) ==
               var own := Pick(k, IsSet(mode as int, 0x100), IsSet(mode as int, 0x80), IsSet(mode as int, 0x40));
               var grp := Pick(k, IsSet(mode as int, 0x20), IsSet(mode as int, 0x10), IsSet(mode as int, 0x8));
               var oth := Pick(k, IsSet(mode as int, 0x4), IsSet(mode as int, 0x2), IsSet(mode as int, 0x1));
               Column(own && grp && oth, own && grp && oth, grp && oth)
    ensures p.Str() == GoExpected(mode)
  {
    var b := PermBits(mode as int);
    var cr, cw, cx := ColumnOf(p, R), ColumnOf(p, W), ColumnOf(p, X);
    assert p.user == Triad(cr.user, cw.user, cx.user);
    assert p.group == Triad(cr.group, cw.group, cx.group);
    assert p.other == Triad(cr.other, cw.other, cx.other);
    assert p.user == Triad(b[0] && b[3] && b[6], b[1] && b[4] && b[7], b[2] && b[5] && b[8]);
    assert p.group == p.user;
    assert p.other == Triad(b[3] && b[6], b[4] && b[7], b[5] && b[8]);
    PermStrDisplay(p);
  }

  lemma ChainExpected(mode: FileMode)
    ensures Chain(mode).Str() == GoExpected(mode)
  {
    forall k: Letter
      ensures ColumnOf(Chain(mode), k) ==
              var own := Pick(k, IsSet(mode as int, 0x100), IsSet(mode as int, 0x80), IsSet(mode as int, 0x40));
              var grp := Pick(k, IsSet(mode as int, 0x20), IsSet(mode as int, 0x10), IsSet(mode as int, 0x8));
              var oth := Pick(k, IsSet(mode as int, 0x4), IsSet(mode as int, 0x2), IsSet(mode as int, 0x1));
              Column(own && grp && oth, own && grp && oth, grp && oth)
    {
      ChainColumn(mode, k);
    }
    ChainDir(mode);
    ViewExpected(Chain(mode), mode);
  }

  /** The Replace chain computes the closed form, for every mode. */
  lemma ModeToStrExact(mode: FileMode)
    ensures ModeToStr(mode) == GoExpected(mode)
  {
    ModeToStrIsChain(mode);
    ChainExpected(mode);
  }

  /** Every character is the letter its column stands for, or '-'. */
  lemma ModeToStrShape(mode: FileMode)
    ensures ModeToStr(mode)[0] == 'd' || ModeToStr(mode)[0] == '-'
    ensures forall i :: 1 <= i < 10 ==> ModeToStr(mode)[i] == PermLetters[i - 1] || ModeToStr(mode)[i] == '-'
  {
    ModeToStrExact(mode);
    var r := GoExpected(mode);
    forall i | 1 <= i < 10
      ensures r[i] == PermLetters[i - 1] || r[i] == '-'
    {
      assert i in {1, 2, 3, 4, 5, 6, 7, 8, 9};
    }
  }

  /** A clear bit always shows as '-': the chain never shows more than the bits allow. */
  lemma ModeToStrSound(mode: FileMode)
    ensures !IsSet(mode as int, ModeDir) ==> ModeToStr(mode)[0] == '-'
    ensures forall i :: 1 <= i < 10 && !PermBit(mode as int, i - 1) ==> ModeToStr(mode)[i] == '-'
  {
    ModeToStrExact(mode);
    var r := GoExpected(mode);
    forall i | 1 <= i < 10 && !PermBit(mode as int, i - 1)
      ensures r[i] == '-'
    {
      assert i in {1, 2, 3, 4, 5, 6, 7, 8, 9};
    }
  }

  /** Full permissions give every letter. */
  lemma ModeToStrFull(mode: FileMode)
    ensures mode == 0x1FF ==> ModeToStr(mode) == "-rwxrwxrwx"
  {
    if mode as int == 0x1FF {
      ModeToStrExact(mode);
      assert PermBits(mode as int) == [true, true, true, true, true, true, true, true, true];
      assert !IsSet(mode as int, ModeDir);
    }
  }

  /** No permissions give ten dashes. */
  lemma ModeToStrEmpty(mode: FileMode)
    ensures mode == 0 ==> ModeToStr(mode) == "----------"
  {
    if mode as int == 0 {
      ModeToStrExact(mode);
      assert PermBits(mode as int) == [false, false, false, false, false, false, false, false, false];
      assert !IsSet(mode as int, ModeDir);
    }
  }

  /**
   * The POSIX `ls -l` reading of a mode: each of the nine positions shows its
   * letter exactly when its own bit is set. This is the corrected definition
   * of modeToStr.
   */
  function ModeToStrIntended(mode: FileMode): (r: string)
    ensures |r| == 10
  {
    var b := PermBits(mode as int);
    [if IsSet(mode as int, ModeDir) then 'd' else '-'] +
    seq(9, i requires 0 <= i < 9 => if b[i] then PermLetters[i] else '-')
  }

  /** Position by position: the letter exactly when its own bit is set, otherwise '-'. */
  lemma ModeToStrIntendedBits(mode: FileMode)
    ensures ModeToStrIntended(mode)[0] == (if IsSet(mode as int, ModeDir) then 'd' else '-')
    ensures forall i :: 1 <= i < 10 ==>
              ModeToStrIntended(mode)[i] == (if PermBit(mode as int, i - 1) then PermLetters[i - 1] else '-')
  {
    var t := ModeToStrIntended(mode);
    forall i | 1 <= i < 10
      ensures t[i] == (if PermBit(mode as int, i - 1) then PermLetters[i - 1] else '-')
    {
      assert t[i] == (if PermBits(mode as int)[i - 1] then PermLetters[i - 1] else '-');
    }
  }

  /**
   * One step of the corrected chain: when the bit is clear, position `i` of
   * the string becomes '-', and nothing else changes.
   */
  function DashAt(s: string, bitSet: bool, i: nat): (r: string)
    requires i < |s|
    ensures |r| == |s|
  {
    s[i := if bitSet then s[i] else '-']
  }

  /**
   * modeToStr as evidently intended: the same ten `if` steps over
   * "drwxrwxrwx", each blanking the position of its own bit instead of the
   * first `n` copies of its letter.
   */
  function ModeToStrFixed(mode: FileMode): (r: string)
    ensures |r| == 10
  {
    var m := mode as int;
    DashSteps(IsSet(m, ModeDir),
              IsSet(m, 0x100), IsSet(m, 0x80), IsSet(m, 0x40),
              IsSet(m, 0x20), IsSet(m, 0x10), IsSet(m, 0x8),
              IsSet(m, 0x4), IsSet(m, 0x2), IsSet(m, 0x1))
  }

  /** The ten positional steps, given whether each bit is set. */
  function DashSteps(d: bool, r1: bool, w1: bool, x1: bool, r2: bool, w2: bool, x2: bool,
                     r3: bool, w3: bool, x3: bool): (r: string)
    ensures |r| == 10
  {
    var s0 := DashAt("drwxrwxrwx", d, 0);
    var s1 := DashAt(s0, r1, 1);
    var s2 := DashAt(s1, w1, 2);
    var s3 := DashAt(s2, x1, 3);
    var s4 := DashAt(s3, r2, 4);
    var s5 := DashAt(s4, w2, 5);
    var s6 := DashAt(s5, x2, 6);
    var s7 := DashAt(s6, r3, 7);
    var s8 := DashAt(s7, w3, 8);
    DashAt(s8, x3, 9)
  }

  lemma DashStepsShow(d: bool, r1: bool, w1: bool, x1: bool, r2: bool, w2: bool, x2: bool,
                      r3: bool, w3: bool, x3: bool)
    ensures DashSteps(d, r1, w1, x1, r2, w2, x2, r3, w3, x3) ==
            [if d then 'd' else '-',
             if r1 then 'r' else '-', if w1 then 'w' else '-', if x1 then 'x' else '-',
             if r2 then 'r' else '-', if w2 then 'w' else '-', if x2 then 'x' else '-',
             if r3 then 'r' else '-', if w3 then 'w' else '-', if x3 then 'x' else '-']
  {
  }

  lemma ModeToStrFixedShows(mode: FileMode)
    ensures var m := mode as int;
            ModeToStrFixed(mode) ==
            [if IsSet(m, ModeDir) then 'd' else '-',
             if IsSet(m, 0x100) then 'r' else '-', if IsSet(m, 0x80) then 'w' else '-', if IsSet(m, 0x40) then 'x' else '-',
             if IsSet(m, 0x20) then 'r' else '-', if IsSet(m, 0x10) then 'w' else '-', if IsSet(m, 0x8) then 'x' else '-',
             if IsSet(m, 0x4) then 'r' else '-', if IsSet(m, 0x2) then 'w' else '-', if IsSet(m, 0x1) then 'x' else '-']
  {
    var m := mode as int;
    DashStepsShow(IsSet(m, ModeDir),
                  IsSet(m, 0x100), IsSet(m, 0x80), IsSet(m, 0x40),
                  IsSet(m, 0x20), IsSet(m, 0x10), IsSet(m, 0x8),
                  IsSet(m, 0x4), IsSet(m, 0x2), IsSet(m, 0x1));
  }

  /** The positional chain and the `ls -l` reading are the same string, for every mode. */
  lemma ModeToStrFixedIsIntended(mode: FileMode)
    ensures ModeToStrFixed(mode) == ModeToStrIntended(mode)
  {
    ModeToStrFixedShows(mode);
    IntendedShows(mode);
  }

  lemma IntendedShows(mode: FileMode)
    ensures var m := mode as int;
            ModeToStrIntended(mode) ==
            [if IsSet(m, ModeDir) then 'd' else '-',
             if IsSet(m, 0x100) then 'r' else '-', if IsSet(m, 0x80) then 'w' else '-', if IsSet(m, 0x40) then 'x' else '-',
             if IsSet(m, 0x20) then 'r' else '-', if IsSet(m, 0x10) then 'w' else '-', if IsSet(m, 0x8) then 'x' else '-',
             if IsSet(m, 0x4) then 'r' else '-', if IsSet(m, 0x2) then 'w' else '-', if IsSet(m, 0x1) then 'x' else '-']
  {
    var m := mode as int;
    LettersShow(if IsSet(m, ModeDir) then 'd' else '-', PermBits(m));
  }

  lemma LettersShow(d: char, b: seq<bool>)
    requires |b| == 9
    ensures [d] + seq(9, i requires 0 <= i < 9 => if b[i] then PermLetters[i] else '-') ==
            [d, if b[0] then 'r' else '-', if b[1] then 'w' else '-', if b[2] then 'x' else '-',
                if b[3] then 'r' else '-', if b[4] then 'w' else '-', if b[5] then 'x' else '-',
                if b[6] then 'r' else '-', if b[7] then 'w' else '-', if b[8] then 'x' else '-']
  {
  }

  /** Each position of the corrected string shows its letter exactly when its own bit is set. */
  lemma ModeToStrFixedBits(mode: FileMode)
    ensures ModeToStrFixed(mode)[0] == (if IsSet(mode as int, ModeDir) then 'd' else '-')
    ensures forall i :: 1 <= i < 10 ==>
              ModeToStrFixed(mode)[i] == (if PermBit(mode as int, i - 1) then PermLetters[i - 1] else '-')
  {
    ModeToStrFixedIsIntended(mode);
    ModeToStrIntendedBits(mode);
  }

  /** The corrected chain prints a plain 0o755 directory as "drwxr-xr-x". */
  lemma ModeToStrFixed755(mode: FileMode)
    requires mode as int == ModeDir + 0x1ED
    ensures ModeToStrFixed(mode) == "drwxr-xr-x"
  {
    Bits755(mode);
    Intended755(mode);
    ModeToStrFixedIsIntended(mode);
  }

  /** For one letter, the owner, group and other bits are all set or all clear. */
  predicate Uniform(mode: FileMode, k: nat)
    requires k < 3
  {
    var b := PermBits(mode as int);
    b[k] == b[3 + k] == b[6 + k]
  }

  /**
   * Go's modeToStr prints the `ls -l` string exactly for the modes whose r, w
   * and x bits are each uniform across owner, group and other.
   */
  lemma ModeToStrMatchesIntendedIff(mode: FileMode)
    ensures ModeToStr(mode) == ModeToStrIntended(mode) <==> Uniform(mode, 0) && Uniform(mode, 1) && Uniform(mode, 2)
  {
    ModeToStrExact(mode);
    var r := GoExpected(mode);
    var t := ModeToStrIntended(mode);
    if r == t {
      assert r[1] == t[1] && r[2] == t[2] && r[3] == t[3];
      assert r[4] == t[4] && r[5] == t[5] && r[6] == t[6];
      assert r[7] == t[7] && r[8] == t[8] && r[9] == t[9];
    }
    if Uniform(mode, 0) && Uniform(mode, 1) && Uniform(mode, 2) {
      forall i | 0 <= i < 10
        ensures r[i] == t[i]
      {
        assert i in {0, 1, 2, 3, 4, 5, 6, 7, 8, 9};
      }
    }
  }

  /** The bits of a plain 0o755 directory. */
  lemma Bits755(mode: FileMode)
    requires mode as int == ModeDir + 0x1ED
    ensures PermBits(mode as int) == [true, true, true, true, false, true, true, false, true]
    ensures IsSet(mode as int, ModeDir)
  {
    var m := mode as int;
    assert IsSet(m, 0x100) && IsSet(m, 0x80) && IsSet(m, 0x40);
    assert IsSet(m, 0x20) && !IsSet(m, 0x10) && IsSet(m, 0x8);
    assert IsSet(m, 0x4) && !IsSet(m, 0x2) && IsSet(m, 0x1);
  }

  /** The group-write slip: a plain 0o755 directory prints "dr-xr-xr-x", not "drwxr-xr-x". */
  lemma ModeToStr755(mode: FileMode)
    requires mode as int == ModeDir + 0x1ED
    ensures ModeToStr(mode) == "dr-xr-xr-x"
    ensures ModeToStrIntended(mode) == "drwxr-xr-x"
  {
    Bits755(mode);
    AsWritten755(mode);
    Intended755(mode);
  }

  lemma AsWritten755(mode: FileMode)
    requires PermBits(mode as int) == [true, true, true, true, false, true, true, false, true]
    requires IsSet(mode as int, ModeDir)
    ensures ModeToStr(mode) == "dr-xr-xr-x"
  {
    ModeToStrExact(mode);
  }

  lemma Intended755(mode: FileMode)
    requires PermBits(mode as int) == [true, true, true, true, false, true, true, false, true]
    requires IsSet(mode as int, ModeDir)
    ensures ModeToStrIntended(mode) == "drwxr-xr-x"
  {
    var t := ModeToStrIntended(mode);
    forall i | 0 <= i < 10
      ensures t[i] == "drwxr-xr-x"[i]
    {
      if i > 0 {
        assert t[i] == (if PermBits(mode as int)[i - 1] then PermLetters[i - 1] else '-');
      }
    }
  }
}
