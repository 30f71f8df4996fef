/** The parenthesis and comma scanners of the migration lint (scripts/lib/release-rules.ts). */
module SqlScanner {
  /** Inside a quoted string or not, and how many parentheses are open. */
  datatype Scan = Scan(quote: bool, depth: int)

  const START := Scan(false, 0)

  const QUOTE := '\''

  /** One character. A doubled quote inside a string toggles twice, which is to say not at all. */
  function Advance(st: Scan, c: char): Scan
  {
    if c == QUOTE then st.(quote := !st.quote)
    else if st.quote then st
    else if c == '(' then st.(depth := st.depth + 1)
    else if c == ')' then st.(depth := st.depth - 1)
    else st
  }

  // ---- closing parenthesis ------------------------------------------------------------------------------------------

  predicate Closes(st: Scan, c: char) { !st.quote && c == ')' && st.depth == 1 }

  /** Where the depth first returns to zero at an unquoted closing parenthesis, or -1. */
  function CloseIn(st: Scan, s: string): (r: int)
    ensures -1 <= r < |s| && (r >= 0 ==> s[r] == ')')
    decreases |s|
  {
    if s == "" then -1
    else if Closes(st, s[0]) then 0
    else
      var r := CloseIn(Advance(st, s[0]), s[1..]);
      if r < 0 then -1 else r + 1
  }

  function Shift(r: int, n: nat): int { if r < 0 then -1 else r + n }

  /** The same, as a position in the whole text. */
  function CloseFrom(source: string, i: nat, st: Scan): (r: int)
    requires i <= |source|
    ensures r == -1 || i <= r < |source|
  {
    Shift(CloseIn(st, source[i..]), i)
  }

  lemma CloseAfter(source: string, i: nat, st: Scan)
    requires i < |source|
    ensures CloseFrom(source, i, st) == if Closes(st, source[i]) then i
        else CloseFrom(source, i + 1, Advance(st, source[i]))
  {
    assert source[i..][1..] == source[i + 1..];
  }

  method ClosingParen(source: string, start: nat) returns (r: int)
    requires start <= |source|
    ensures r == CloseFrom(source, start, START)
  {
    var depth, quote := 0, false;
    var i := start;
    while i < |source|
      invariant start <= i <= |source|
      invariant CloseFrom(source, start, START) == CloseFrom(source, i, Scan(quote, depth))
    {
      CloseAfter(source, i, Scan(quote, depth));
      var c := source[i];
      if c == QUOTE {
        if quote && i + 1 < |source| && source[i + 1] == QUOTE {
          CloseAfter(source, i + 1, Scan(!quote, depth));
          i := i + 2;
          continue;
        }
        quote := !quote;
      }
      if !quote && c == '(' { depth := depth + 1; }
      if !quote && c == ')' {
        depth := depth - 1;
        if depth == 0 { return i; }
      }
      i := i + 1;
    }
    return -1;
  }

  /** SQL text as the scanner sees it: plain characters, strings with doubled quotes, and parenthesised groups. */
  datatype Item = Plain(c: char) | Quoted(body: string) | Group(items: seq<Item>)

  predicate WellFormed(item: Item)
  {
    match item
    case Plain(c) => c != '(' && c != ')' && c != QUOTE
    case Quoted(_) => true
    case Group(items) => forall i :: 0 <= i < |items| ==> WellFormed(items[i])
  }

  function Pair(c: char): string { if c == QUOTE then [QUOTE, QUOTE] else [c] }

  function Doubled(body: string): string
  {
    if body == "" then ""
    else Pair(body[0]) + Doubled(body[1..])
  }

  function Render(item: Item): string
  {
    match item
    case Plain(c) => [c]
    case Quoted(body) => [QUOTE] + Doubled(body) + [QUOTE]
    case Group(items) => "(" + RenderAll(items) + ")"
  }

  function RenderAll(items: seq<Item>): string
  {
    if items == [] then "" else Render(items[0]) + RenderAll(items[1..])
  }

  lemma Head(st: Scan, c: char, rest: string)
    requires !Closes(st, c)
    ensures CloseIn(st, [c] + rest) == Shift(CloseIn(Advance(st, c), rest), 1)
  {
    assert ([c] + rest)[1..] == rest;
  }

  lemma HeadTwice(st: Scan, rest: string)
    requires st.quote
    ensures CloseIn(st, [QUOTE, QUOTE] + rest) == Shift(CloseIn(st, rest), 2)
  {
    assert [QUOTE, QUOTE] + rest == [QUOTE] + ([QUOTE] + rest);
    Head(st, QUOTE, [QUOTE] + rest);
    Head(st.(quote := false), QUOTE, rest);
  }

  lemma PairIsSkipped(st: Scan, c: char, rest: string)
    requires st.quote
    ensures CloseIn(st, Pair(c) + rest) == Shift(CloseIn(st, rest), |Pair(c)|)
  {
    if c == QUOTE {
      HeadTwice(st, rest);
    } else {
      Head(st, c, rest);
    }
  }

  lemma {:induction false} DoubledIsSkipped(st: Scan, body: string, rest: string)
    requires st.quote
    ensures CloseIn(st, Doubled(body) + rest) == Shift(CloseIn(st, rest), |Doubled(body)|)
  {
    if body == "" {
      assert Doubled(body) + rest == rest;
    } else {
      DoubledIsSkipped(st, body[1..], rest);
      PairIsSkipped(st, body[0], Doubled(body[1..]) + rest);
      assert Doubled(body) + rest == Pair(body[0]) + (Doubled(body[1..]) + rest);
    }
  }

  lemma QuotedIsSkipped(st: Scan, body: string, rest: string)
    requires !st.quote
    ensures CloseIn(st, Render(Quoted(body)) + rest) == Shift(CloseIn(st, rest), |Render(Quoted(body))|)
  {
    var inside := Doubled(body) + ([QUOTE] + rest);
    assert Render(Quoted(body)) + rest == [QUOTE] + inside;
    Head(st, QUOTE, inside);
    DoubledIsSkipped(st.(quote := true), body, [QUOTE] + rest);
    Head(st.(quote := true), QUOTE, rest);
  }

  lemma Regroup(inner: string, rest: string)
    ensures "(" + inner + ")" + rest == ['('] + (inner + ([')'] + rest))
  {
  }

  lemma Wrapped(st: Scan, inner: string, tail: string, rest: string)
    requires !st.quote && st.depth >= 1 && tail == [')'] + rest
    requires CloseIn(Advance(st, '('), inner + tail) == Shift(CloseIn(Advance(st, '('), tail), |inner|)
    ensures CloseIn(st, ['('] + (inner + tail)) == Shift(CloseIn(st, rest), |inner| + 2)
  {
    Head(st, '(', inner + tail);
    Head(Advance(st, '('), ')', rest);
  }

  /** Inside an open parenthesis every well-formed item is passed over whole. */
  lemma {:induction false} ItemIsSkipped(st: Scan, item: Item, rest: string)
    requires !st.quote && st.depth >= 1 && WellFormed(item)
    ensures CloseIn(st, Render(item) + rest) == Shift(CloseIn(st, rest), |Render(item)|)
    decreases item, 0
  {
    match item
    case Plain(c) => Head(st, c, rest);
    case Quoted(body) => QuotedIsSkipped(st, body, rest);
    case Group(items) =>
      ItemsAreSkipped(Advance(st, '('), items, [')'] + rest);
      Wrapped(st, RenderAll(items), [')'] + rest, rest);
      Regroup(RenderAll(items), rest);
  }

  lemma {:induction false} ItemsAreSkipped(st: Scan, items: seq<Item>, rest: string)
    requires !st.quote && st.depth >= 1 && forall i :: 0 <= i < |items| ==> WellFormed(items[i])
    ensures CloseIn(st, RenderAll(items) + rest) == Shift(CloseIn(st, rest), |RenderAll(items)|)
    decreases items
  {
    if items == [] {
      assert RenderAll(items) + rest == rest;
    } else {
      assert RenderAll(items) + rest == Render(items[0]) + (RenderAll(items[1..]) + rest);
      ItemIsSkipped(st, items[0], RenderAll(items[1..]) + rest);
      ItemsAreSkipped(st, items[1..], rest);
    }
  }

  /** The scanner stops at the last character of a group, whatever follows it. */
  lemma GroupCloses(items: seq<Item>, rest: string)
    requires WellFormed(Group(items))
    ensures CloseIn(START, Render(Group(items)) + rest) == |Render(Group(items))| - 1
  {
    var inside := RenderAll(items) + (")" + rest);
    assert Render(Group(items)) + rest == "(" + inside && ("(" + inside)[1..] == inside;
    ItemsAreSkipped(Scan(false, 1), items, ")" + rest);
  }

  lemma SkipHead(s: string, y: nat)
    requires s != "" && y < |s| - 1
    ensures s[1..][y + 1..] == s[y + 2..]
  {
  }

  /** Closing from one level deeper takes the close of this level first, and then one more. */
  lemma {:induction false} OneLevelMore(quote: bool, d: int, s: string)
    requires d >= 1 && CloseIn(Scan(quote, d + 1), s) >= 0
    ensures var x, y := CloseIn(Scan(quote, d + 1), s), CloseIn(Scan(quote, d), s);
            0 <= y < x && CloseIn(Scan(false, 1), s[y + 1..]) == x - y - 1
    decreases |s|
  {
    var x := CloseIn(Scan(quote, d + 1), s);
    if !Closes(Scan(quote, d), s[0]) {
      var st := Advance(Scan(quote, d), s[0]);
      assert Advance(Scan(quote, d + 1), s[0]) == Scan(st.quote, st.depth + 1) && st.depth >= 1;
      assert CloseIn(Scan(st.quote, st.depth + 1), s[1..]) == x - 1;
      OneLevelMore(st.quote, st.depth, s[1..]);
      SkipHead(s, CloseIn(st, s[1..]));
    }
  }

  /** A string that is closed ends, at its first quote, and what it holds has no quote. */
  lemma {:induction false} QuoteEnds(s: string) returns (k: nat)
    requires CloseIn(Scan(true, 1), s) >= 0
    ensures k < CloseIn(Scan(true, 1), s) && s[k] == QUOTE && Doubled(s[..k]) == s[..k]
    ensures CloseIn(Scan(false, 1), s[k + 1..]) == CloseIn(Scan(true, 1), s) - k - 1
  {
    if s[0] == QUOTE {
      k := 0;
    } else {
      var rest := QuoteEnds(s[1..]);
      k := rest + 1;
      assert s[1..][rest + 1..] == s[k + 1..] && s[..k] == [s[0]] + s[1..][..rest] && s[..k][1..] == s[1..][..rest];
    }
  }

  lemma FirstString(s: string, k: nat)
    requires k + 2 <= |s| && s[0] == QUOTE && s[k + 1] == QUOTE && Doubled(s[1..][..k]) == s[1..][..k]
    ensures s[..k + 2] == Render(Quoted(s[1..k + 1]))
  {
    assert s[1..][..k] == s[1..k + 1];
    assert s[..k + 2] == [QUOTE] + s[1..k + 1] + [QUOTE];
  }

  lemma AfterQuoted(s: string) returns (k: nat)
    requires CloseIn(Scan(false, 1), s) >= 0 && s[0] == QUOTE
    ensures k + 2 <= CloseIn(Scan(false, 1), s)
            && CloseIn(Scan(false, 1), s[k + 2..]) == CloseIn(Scan(false, 1), s) - k - 2
    ensures s[..k + 2] == Render(Quoted(s[1..k + 1]))
  {
    k := QuoteEnds(s[1..]);
    SkipHead(s, k);
    FirstString(s, k);
  }

  lemma AfterGroup(s: string)
    requires CloseIn(Scan(false, 1), s) >= 0 && s[0] == '('
    ensures var x, y := CloseIn(Scan(false, 1), s), CloseIn(Scan(false, 1), s[1..]);
            y >= 0 && y + 2 <= x && CloseIn(Scan(false, 1), s[y + 2..]) == x - y - 2
  {
    OneLevelMore(false, 1, s[1..]);
    SkipHead(s, CloseIn(Scan(false, 1), s[1..]));
  }

  /** One more item in front. */
  lemma Front(s: string, r: nat, n: nat, item: Item, items: seq<Item>)
    requires n <= r <= |s| && s[..n] == Render(item) && RenderAll(items) == s[n..][..r - n]
    ensures RenderAll([item] + items) == s[..r]
  {
    assert ([item] + items)[1..] == items;
    assert s[..r] == s[..n] + s[n..][..r - n];
  }

  lemma Enclosed(s: string, y: nat, inner: seq<Item>)
    requires y + 2 <= |s| && s[0] == '(' && s[y + 1] == ')' && RenderAll(inner) == s[1..][..y]
    ensures s[..y + 2] == Render(Group(inner))
  {
    assert s[..y + 2] == "(" + s[1..][..y] + ")";
  }

  lemma AfterPlain(s: string)
    requires CloseIn(Scan(false, 1), s) >= 0 && s[0] != '(' && s[0] != ')' && s[0] != QUOTE
    ensures CloseIn(Scan(false, 1), s) >= 1 && CloseIn(Scan(false, 1), s[1..]) == CloseIn(Scan(false, 1), s) - 1
    ensures s[..1] == Render(Plain(s[0]))
  {
  }

  /** Whatever the scanner passes over before it closes is a sequence of well-formed items. */
  lemma {:induction false} PassedIsItems(s: string) returns (items: seq<Item>)
    requires CloseIn(Scan(false, 1), s) >= 0
    ensures WellFormed(Group(items)) && RenderAll(items) == s[..CloseIn(Scan(false, 1), s)]
    decreases |s|
  {
    var r := CloseIn(Scan(false, 1), s);
    if s[0] == ')' {
      items := [];
    } else if s[0] == QUOTE {
      var k := AfterQuoted(s);
      var rest := PassedIsItems(s[k + 2..]);
      Front(s, r, k + 2, Quoted(s[1..k + 1]), rest);
      items := [Quoted(s[1..k + 1])] + rest;
    } else if s[0] == '(' {
      AfterGroup(s);
      var y := CloseIn(Scan(false, 1), s[1..]);
      var inner := PassedIsItems(s[1..]);
      var rest := PassedIsItems(s[y + 2..]);
      Enclosed(s, y, inner);
      Front(s, r, y + 2, Group(inner), rest);
      items := [Group(inner)] + rest;
    } else {
      AfterPlain(s);
      var rest := PassedIsItems(s[1..]);
      Front(s, r, 1, Plain(s[0]), rest);
      items := [Plain(s[0])] + rest;
    }
  }

  predicate IsGroup(s: string, items: seq<Item>, r: int)
  {
    WellFormed(Group(items)) && Render(Group(items)) <= s && r == |Render(Group(items))| - 1
  }

  lemma CloseIsGroup(s: string) returns (items: seq<Item>)
    requires s != "" && s[0] == '(' && CloseIn(START, s) >= 0
    ensures IsGroup(s, items, CloseIn(START, s))
  {
    items := PassedIsItems(s[1..]);
    Enclosed(s, CloseIn(Scan(false, 1), s[1..]), items);
  }

  lemma GroupIsClose(s: string, items: seq<Item>, r: int)
    requires IsGroup(s, items, r)
    ensures CloseIn(START, s) == r
  {
    GroupCloses(items, s[|Render(Group(items))|..]);
    assert s == Render(Group(items)) + s[|Render(Group(items))|..];
  }

  /** From an opening parenthesis, the result is r >= 0 exactly when r is where a group of the grammar ends. */
  lemma ClosesExactly(s: string, r: nat)
    requires s != "" && s[0] == '('
    ensures CloseIn(START, s) == r <==> exists items :: IsGroup(s, items, r)
  {
    if CloseIn(START, s) == r {
      var items := CloseIsGroup(s);
    }
    if items :| IsGroup(s, items, r) {
      GroupIsClose(s, items, r);
    }
  }

  // ---- top-level commas ---------------------------------------------------------------------------------------------

  /** Outside all parentheses a closing one is passed over. */
  function AdvanceOuter(st: Scan, c: char): Scan
  {
    if !st.quote && c == ')' && st.depth <= 0 then st else Advance(st, c)
  }

  function After(st: Scan, s: string): Scan
    decreases |s|
  {
    if s == "" then st else After(AdvanceOuter(st, s[0]), s[1..])
  }

  predicate Cuts(st: Scan, c: char) { st == START && c == ',' }

  /** The text cut at every comma that is unquoted and outside all parentheses. */
  function Pieces(st: Scan, s: string): (ps: seq<string>)
    ensures ps != []
    decreases |s|
  {
    if s == "" then [""]
    else if Cuts(st, s[0]) then [""] + Pieces(START, s[1..])
    else Glue([s[0]], Pieces(AdvanceOuter(st, s[0]), s[1..]))
  }

  function Glue(prefix: string, ps: seq<string>): (r: seq<string>)
    requires ps != []
    ensures |r| == |ps|
  {
    [prefix + ps[0]] + ps[1..]
  }

  lemma GlueNothing(ps: seq<string>)
    requires ps != []
    ensures Glue("", ps) == ps
  {
    assert "" + ps[0] == ps[0];
  }

  lemma GlueCut(a: string, ps: seq<string>)
    ensures Glue(a, [""] + ps) == [a] + ps
  {
    assert a + "" == a;
  }

  lemma GlueTwice(a: string, b: string, ps: seq<string>)
    requires ps != []
    ensures Glue(a, Glue(b, ps)) == Glue(a + b, ps)
  {
    assert a + (b + ps[0]) == a + b + ps[0];
  }

  /** The first n characters are passed over whole, ending in `after`. */
  predicate Passed(st: Scan, s: string, n: nat, after: Scan)
  {
    n <= |s| && After(st, s) == After(after, s[n..]) && Pieces(st, s) == Glue(s[..n], Pieces(after, s[n..]))
  }

  lemma PassOne(st: Scan, s: string)
    requires s != "" && !Cuts(st, s[0])
    ensures Passed(st, s, 1, AdvanceOuter(st, s[0]))
  {
    assert s[..1] == [s[0]];
  }

  lemma PassMore(st: Scan, s: string, m: nat, mid: Scan, n: nat, after: Scan)
    requires Passed(st, s, m, mid) && Passed(mid, s[m..], n, after)
    ensures Passed(st, s, m + n, after)
  {
    SliceOfRest(s, m, n);
    assert s[..m] + s[m..m + n] == s[..m + n];
    GlueTwice(s[..m], s[m..m + n], Pieces(after, s[m + n..]));
  }

  lemma SliceOfRest(source: string, i: nat, n: nat)
    requires i + n <= |source|
    ensures source[i..][..n] == source[i..i + n] && source[i..][n..] == source[i + n..]
  {
  }

  /** Inside a parenthesis nothing is cut, up to and including the one that closes it. */
  lemma {:induction false} ParenIsWhole(st: Scan, s: string)
    requires st.depth >= 1
    ensures var r := CloseIn(st, s); if r < 0 then After(st, s).depth >= 1 else Passed(st, s, r + 1, START)
    decreases |s|
  {
    if s != "" {
      PassOne(st, s);
      if !Closes(st, s[0]) {
        var st' := Advance(st, s[0]);
        ParenIsWhole(st', s[1..]);
        var r := CloseIn(st', s[1..]);
        if r >= 0 { PassMore(st, s, 1, st', r + 1, START); }
      }
    }
  }

  lemma OpenIsWhole(s: string)
    requires s != "" && s[0] == '('
    ensures var r := CloseIn(START, s); if r < 0 then After(START, s).depth >= 1 else Passed(START, s, r + 1, START)
  {
    PassOne(START, s);
    ParenIsWhole(Scan(false, 1), s[1..]);
    var r := CloseIn(Scan(false, 1), s[1..]);
    if r >= 0 { PassMore(START, s, 1, Scan(false, 1), r + 1, START); }
  }

  ghost predicate Scanned(source: string, parts: seq<string>, start: nat, i: nat, st: Scan)
  {
    && start <= i <= |source|
    && Pieces(START, source) == parts + Glue(source[start..i], Pieces(st, source[i..]))
    && After(START, source) == After(st, source[i..])
  }

  lemma ScanNone(source: string)
    ensures Scanned(source, [], 0, 0, START)
  {
    assert source[0..] == source && source[0..0] == "";
    GlueNothing(Pieces(START, source));
  }

  lemma ScanRun(source: string, parts: seq<string>, start: nat, i: nat, st: Scan, n: nat, after: Scan)
    requires Scanned(source, parts, start, i, st) && Passed(st, source[i..], n, after)
    ensures i + n <= |source| && Scanned(source, parts, start, i + n, after)
  {
    SliceOfRest(source, i, n);
    assert source[start..i] + source[i..i + n] == source[start..i + n];
    GlueTwice(source[start..i], source[i..i + n], Pieces(after, source[i + n..]));
  }

  lemma ScanOne(source: string, parts: seq<string>, start: nat, i: nat, st: Scan)
    requires Scanned(source, parts, start, i, st) && i < |source| && !Cuts(st, source[i])
    ensures Scanned(source, parts, start, i + 1, AdvanceOuter(st, source[i]))
  {
    PassOne(st, source[i..]);
    ScanRun(source, parts, start, i, st, 1, AdvanceOuter(st, source[i]));
  }

  lemma ScanComma(source: string, parts: seq<string>, start: nat, i: nat)
    requires Scanned(source, parts, start, i, START) && i < |source| && source[i] == ','
    ensures Scanned(source, parts + [source[start..i]], i + 1, i + 1, START)
  {
    assert source[i..][1..] == source[i + 1..] && source[i + 1..i + 1] == "";
    var rest := Pieces(START, source[i + 1..]);
    GlueNothing(rest);
    GlueCut(source[start..i], rest);
    assert AdvanceOuter(START, ',') == START;
    assert parts + ([source[start..i]] + rest) == parts + [source[start..i]] + rest;
  }

  lemma ParenUnclosed(source: string, parts: seq<string>, start: nat, i: nat)
    requires Scanned(source, parts, start, i, START) && i < |source| && source[i] == '('
    requires CloseFrom(source, i, START) < 0
    ensures After(START, source).depth >= 1
  {
    assert After(START, source) == After(START, source[i..]);
    OpenIsWhole(source[i..]);
  }

  lemma RunTo(source: string, i: nat, n: nat, end: int)
    requires i < |source| && source[i] == '(' && CloseFrom(source, i, START) == end && end >= 0 && n == end - i + 1
    ensures Passed(START, source[i..], n, START)
  {
    OpenIsWhole(source[i..]);
  }

  lemma ScanEnd(source: string, parts: seq<string>, start: nat, st: Scan)
    requires Scanned(source, parts, start, |source|, st)
    ensures Pieces(START, source) == parts + [source[start..]] && After(START, source) == st
  {
    assert source[|source|..] == "" && source[start..|source|] == source[start..];
    GlueCut(source[start..], []);
    assert Pieces(st, "") == [""] + [];
  }

  method CommaParts(source: string) returns (parts: seq<string>)
    ensures parts == if After(START, source).depth > 0 then [] else Pieces(START, source)
  {
    parts := [];
    var start, i := 0, 0;
    ghost var st := START;
    ScanNone(source);
    while i < |source|
      invariant Scanned(source, parts, start, i, st) && (st == START || (i == |source| && st == Scan(true, 0)))
    {
      if source[i] == '(' {
        var end := ClosingParen(source, i);
        if end < 0 {
          ParenUnclosed(source, parts, start, i);
          return [];
        }
        RunTo(source, i, end - i + 1, end);
        ScanRun(source, parts, start, i, START, end - i + 1, START);
        i := end + 1;
      } else if source[i] == QUOTE {
        ScanOne(source, parts, start, i, START);
        i, st := SkipString(source, parts, start, i + 1);
      } else if source[i] == ',' {
        ScanComma(source, parts, start, i);
        parts := parts + [source[start..i]];
        start := i + 1;
        i := i + 1;
      } else {
        ScanOne(source, parts, start, i, START);
        i := i + 1;
      }
    }
    ScanEnd(source, parts, start, st);
    parts := parts + [source[start..]];
  }

  /** The inner loop over a quoted string: past its closing quote, or to the end of the text. */
  method SkipString(source: string, ghost parts: seq<string>, ghost start: nat, from: nat)
    returns (i: nat, ghost st: Scan)
    requires Scanned(source, parts, start, from, Scan(true, 0))
    ensures i >= from && Scanned(source, parts, start, i, st) && (st == START || (i == |source| && st == Scan(true, 0)))
  {
    i, st := from, Scan(true, 0);
    while i < |source|
      invariant i >= from && Scanned(source, parts, start, i, Scan(true, 0))
    {
      ScanOne(source, parts, start, i, Scan(true, 0));
      if source[i] == QUOTE {
        if i + 1 < |source| && source[i + 1] == QUOTE {
          i := i + 1;
          ScanOne(source, parts, start, i, START);
        } else {
          return i + 1, START;
        }
      }
      i := i + 1;
    }
  }

  // ---- what the pieces are ------------------------------------------------------------------------------------------

  function Join(ps: seq<string>): string
    requires ps != []
  {
    if |ps| == 1 then ps[0] else ps[0] + "," + Join(ps[1..])
  }

  /** No top-level comma inside. */
  predicate Uncut(st: Scan, p: string)
    decreases |p|
  {
    p == "" || (!Cuts(st, p[0]) && Uncut(AdvanceOuter(st, p[0]), p[1..]))
  }

  /** Every piece is free of top-level commas, and every piece but the last ends outside strings and parentheses. */
  predicate Separated(st: Scan, ps: seq<string>)
    requires ps != []
    decreases |ps|
  {
    Uncut(st, ps[0]) && (|ps| > 1 ==> After(st, ps[0]) == START && Separated(START, ps[1..]))
  }

  lemma {:induction false} PiecesFit(st: Scan, s: string)
    ensures Join(Pieces(st, s)) == s && Separated(st, Pieces(st, s))
    decreases |s|
  {
    if s != "" {
      if Cuts(st, s[0]) {
        PiecesFit(START, s[1..]);
        var rest := Pieces(START, s[1..]);
        assert ([""] + rest)[1..] == rest;
        assert "" + "," == [s[0]] && [s[0]] + s[1..] == s;
      } else {
        var st' := AdvanceOuter(st, s[0]);
        PiecesFit(st', s[1..]);
        GlueFits(st, s[0], Pieces(st', s[1..]));
        assert [s[0]] + s[1..] == s;
      }
    }
  }

  lemma GlueFits(st: Scan, c: char, ps: seq<string>)
    requires ps != [] && !Cuts(st, c) && Separated(AdvanceOuter(st, c), ps)
    ensures Join(Glue([c], ps)) == [c] + Join(ps) && Separated(st, Glue([c], ps))
  {
    var glued := Glue([c], ps);
    assert glued[1..] == ps[1..] && glued[0][1..] == ps[0];
    if |ps| > 1 {
      assert glued[0] + "," + Join(ps[1..]) == [c] + (ps[0] + "," + Join(ps[1..]));
    }
  }

  lemma {:induction false} UncutIsGlued(st: Scan, p: string, rest: string)
    requires Uncut(st, p)
    ensures Pieces(st, p + rest) == Glue(p, Pieces(After(st, p), rest))
    decreases |p|
  {
    if p == "" {
      assert p + rest == rest;
      GlueNothing(Pieces(st, rest));
    } else {
      UncutIsGlued(AdvanceOuter(st, p[0]), p[1..], rest);
      assert (p + rest)[1..] == p[1..] + rest;
      GlueTwice([p[0]], p[1..], Pieces(After(st, p), rest));
      assert [p[0]] + p[1..] == p;
    }
  }

  lemma {:induction false} FitIsUnique(st: Scan, ps: seq<string>)
    requires ps != [] && Separated(st, ps)
    ensures Pieces(st, Join(ps)) == ps
    decreases |ps|
  {
    if |ps| == 1 {
      UncutIsGlued(st, ps[0], "");
      assert ps[0] + "" == ps[0];
    } else {
      var rest := "," + Join(ps[1..]);
      UncutIsGlued(st, ps[0], rest);
      assert Join(ps) == ps[0] + rest && rest[1..] == Join(ps[1..]);
      FitIsUnique(START, ps[1..]);
      assert Pieces(START, rest) == [""] + ps[1..];
      GlueCut(ps[0], ps[1..]);
      assert [ps[0]] + ps[1..] == ps;
    }
  }

  /**
   * The pieces are the one way to write the text as a comma-joined list that is cut at every top-level comma and
   * nowhere else.
   */
  lemma PiecesExact(s: string, ps: seq<string>)
    requires ps != []
    ensures ps == Pieces(START, s) <==> Join(ps) == s && Separated(START, ps)
  {
    PiecesFit(START, s);
    if Join(ps) == s && Separated(START, ps) {
      FitIsUnique(START, ps);
    }
  }
}
