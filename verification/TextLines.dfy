/** Texts as lines, and what stripping does to them. */
module TextLines {
  import opened Strings

  function Lines(t: string): (ls: seq<string>)
    ensures ls != []
  {
    if t == "" then [""]
    else
      var rest := Lines(t[1..]);
      if t[0] == '\n' then [""] + rest else [[t[0]] + rest[0]] + rest[1..]
  }

  function Join(ls: seq<string>): string
    requires ls != []
    decreases |ls|
  {
    if |ls| == 1 then ls[0] else ls[0] + "\n" + Join(ls[1..])
  }

  predicate OneLine(l: string) {
    '\n' !in l
  }

  predicate AllOneLine(ls: seq<string>) {
    forall i | 0 <= i < |ls| :: OneLine(ls[i])
  }

  lemma LinesCons(t: string)
    requires t != ""
    ensures var rest := Lines(t[1..]);
            Lines(t) == if t[0] == '\n' then [""] + rest else [[t[0]] + rest[0]] + rest[1..]
  {
  }

  lemma JoinCons(l: string, ls: seq<string>)
    ensures Join([l] + ls) == if ls == [] then l else l + "\n" + Join(ls)
  {
    assert ([l] + ls)[1..] == ls;
  }

  lemma {:induction false} LinesAreLines(t: string)
    ensures AllOneLine(Lines(t))
  {
    if t != "" { LinesAreLines(t[1..]); }
  }

  lemma {:induction false} JoinLines(t: string)
    ensures Join(Lines(t)) == t
  {
    hide Lines, Join;
    if t == "" {
      EmptyLines();
    } else {
      JoinLines(t[1..]);
      LinesCons(t);
      JoinFirst(t[0], Lines(t[1..]));
      JoinCons("", Lines(t[1..]));
      assert t == [t[0]] + t[1..];
    }
  }

  lemma EmptyLines()
    ensures Lines("") == [""] && Join([""]) == ""
  {
  }

  lemma JoinFirst(c: char, ls: seq<string>)
    requires ls != []
    ensures Join([[c] + ls[0]] + ls[1..]) == [c] + Join(ls)
  {
    hide Join;
    JoinCons([c] + ls[0], ls[1..]);
    JoinCons(ls[0], ls[1..]);
    assert ls == [ls[0]] + ls[1..];
    if ls[1..] != [] {
      assert [c] + ls[0] + "\n" + Join(ls[1..]) == [c] + (ls[0] + "\n" + Join(ls[1..]));
    }
  }

  lemma {:induction false} LineOf(l: string)
    requires OneLine(l)
    ensures Lines(l) == [l]
  {
    hide Lines;
    if l == "" {
      EmptyLines();
    } else {
      LineOf(l[1..]);
      LinesCons(l);
      assert [l[0]] + l[1..] == l && l[0] in l;
    }
  }

  lemma {:induction false} LinesAppend(a: string, b: string)
    ensures Lines(a + "\n" + b) == Lines(a) + Lines(b)
  {
    hide Lines;
    var t := a + "\n" + b;
    LinesCons(t);
    if a == "" {
      EmptyLines();
      assert t[1..] == b;
    } else {
      LinesAppend(a[1..], b);
      assert t[1..] == a[1..] + "\n" + b && t[0] == a[0];
      LinesCons(a);
      ConsAppend(a[0], Lines(a[1..]), Lines(b));
    }
  }

  lemma ConsAppend(c: char, front: seq<string>, back: seq<string>)
    requires front != []
    ensures [[c] + (front + back)[0]] + (front + back)[1..] == ([[c] + front[0]] + front[1..]) + back
    ensures [""] + (front + back) == ([""] + front) + back
  {
  }

  lemma {:induction false} LinesJoin(ls: seq<string>)
    requires ls != [] && AllOneLine(ls)
    ensures Lines(Join(ls)) == ls
    decreases |ls|
  {
    hide Lines, Join;
    LineOf(ls[0]);
    JoinCons(ls[0], ls[1..]);
    assert ls == [ls[0]] + ls[1..];
    if |ls| > 1 {
      LinesJoin(ls[1..]);
      LinesAppend(ls[0], Join(ls[1..]));
    }
  }

  lemma {:induction false} JoinAppend(a: seq<string>, b: seq<string>)
    requires a != [] && b != []
    ensures Join(a + b) == Join(a) + "\n" + Join(b)
    decreases |a|
  {
    hide Join;
    JoinCons(a[0], a[1..]);
    JoinCons(a[0], a[1..] + b);
    assert a == [a[0]] + a[1..] && a + b == [a[0]] + (a[1..] + b);
    if |a| == 1 {
      assert a[1..] + b == b;
    } else {
      JoinAppend(a[1..], b);
      assert a[0] + "\n" + (Join(a[1..]) + "\n" + Join(b)) == (a[0] + "\n" + Join(a[1..])) + "\n" + Join(b);
    }
  }

  // ----- stripping -----

  lemma {:induction false} StripRightBlank(a: string, w: string)
    requires Blank(w)
    ensures StripRight(a + w) == StripRight(a)
    decreases |w|
  {
    if w == "" {
      assert a + w == a;
    } else {
      StripRightBlank(a, w[..|w| - 1]);
      assert (a + w)[..|a + w| - 1] == a + w[..|w| - 1] && (a + w)[|a + w| - 1] == w[|w| - 1];
    }
  }

  lemma {:induction false} StripLeftBlank(w: string, a: string)
    requires Blank(w)
    ensures StripLeft(w + a) == StripLeft(a)
    decreases |w|
  {
    if w == "" {
      assert w + a == a;
    } else {
      StripLeftBlank(w[1..], a);
      assert (w + a)[1..] == w[1..] + a && (w + a)[0] == w[0];
    }
  }

  lemma {:induction false} StripLeftAppend(a: string, w: string)
    requires !Blank(a)
    ensures StripLeft(a + w) == StripLeft(a) + w
    decreases |a|
  {
    if IsSpace(a[0]) {
      StripLeftAppend(a[1..], w);
      assert (a + w)[1..] == a[1..] + w;
    }
  }

  /** Blanks around a text do not matter to its strip. */
  lemma StripBlanks(w: string, a: string, w': string)
    requires Blank(w) && Blank(w')
    ensures Strip(w + a + w') == Strip(a)
  {
    assert w + a + w' == w + (a + w');
    StripLeftBlank(w, a + w');
    if Blank(a) {
      StripFacts(a);
      StripFacts(a + w');
    } else {
      StripLeftAppend(a, w');
      StripRightBlank(StripLeft(a), w');
    }
  }

  lemma StripOfStripRight(a: string)
    ensures Strip(StripRight(a)) == Strip(a)
  {
    var t := StripRight(a);
    StripRightCuts(a);
    assert a == "" + t + a[|t|..];
    StripBlanks("", t, a[|t|..]);
  }

  /** Stripping a text on the right drops its blank last lines and strips the
      line that is then last. */
  function Trim(ls: seq<string>): (r: seq<string>)
    requires ls != []
    ensures r != []
    decreases |ls|
  {
    if |ls| > 1 && Blank(ls[|ls| - 1]) then Trim(ls[..|ls| - 1]) else ls[..|ls| - 1] + [StripRight(ls[|ls| - 1])]
  }

  /** Where the last line is that is not blank, or the first line. */
  function LastIndex(ls: seq<string>): (n: nat)
    requires ls != []
    ensures n < |ls|
    decreases |ls|
  {
    if |ls| > 1 && Blank(ls[|ls| - 1]) then LastIndex(ls[..|ls| - 1]) else |ls| - 1
  }

  function LastLine(ls: seq<string>): string
    requires ls != []
  {
    ls[LastIndex(ls)]
  }

  /** Where trimming stops. */
  lemma {:induction false} TrimStops(ls: seq<string>) returns (n: nat)
    requires ls != []
    ensures n < |ls| && Trim(ls) == ls[..n] + [StripRight(ls[n])] && (n == 0 || !Blank(ls[n]))
    ensures n == LastIndex(ls)
    ensures forall i | n < i < |ls| :: Blank(ls[i])
    decreases |ls|
  {
    n := |ls| - 1;
    if |ls| > 1 && Blank(ls[n]) {
      n := TrimStops(ls[..n]);
      assert ls[..|ls| - 1][..n] == ls[..n];
    }
  }

  lemma StripRightNothing(l: string)
    ensures StripRight(l) == "" <==> Blank(l)
  {
    StripRightCuts(l);
    BlankParts(StripRight(l), l[|StripRight(l)|..]);
  }

  lemma {:induction false} JoinTrim(ls: seq<string>)
    requires ls != []
    ensures StripRight(Join(ls)) == Join(Trim(ls))
    decreases |ls|
  {
    hide Join, StripRight, Blank;
    var n := |ls| - 1;
    var front, last := ls[..n], ls[n];
    assert ls == front + [last];
    JoinCons(last, []);
    JoinCons(StripRight(last), []);
    assert [last] + [] == [last] && [StripRight(last)] + [] == [StripRight(last)];
    if n > 0 {
      JoinAppend(front, [last]);
      if Blank(last) {
        JoinTrim(front);
        NewlineBlank(last);
        assert Join(ls) == Join(front) + ("\n" + last);
        StripRightBlank(Join(front), "\n" + last);
      } else {
        JoinAppend(front, [StripRight(last)]);
        StripRightKeeps(Join(front) + "\n", last);
      }
    } else {
      assert front + [StripRight(last)] == [StripRight(last)] && front + [last] == [last];
    }
  }

  lemma NewlineBlank(l: string)
    requires Blank(l)
    ensures Blank("\n" + l)
  {
  }

  lemma {:induction false} StripRightKeeps(a: string, b: string)
    requires !Blank(b)
    ensures StripRight(a + b) == a + StripRight(b)
    decreases |b|
  {
    if IsSpace(b[|b| - 1]) {
      StripRightKeeps(a, b[..|b| - 1]);
      assert (a + b)[..|a + b| - 1] == a + b[..|b| - 1];
    }
  }
}
