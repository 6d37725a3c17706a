/**
 * The report's lines: resolved records first, the best one under a header and
 * emphasized, then the unresolved ones; blank lines separate the advisories,
 * the best entry and the two groups.
 */
module Presentation {
  import opened Strings
  import opened Records

  /** One line of the report: a blank line, the "Best candidate unit:"
      header, or a `(<unit>) <description>` entry, emphasized for the best one. */
  datatype Line = Blank | BestHeader | Entry(unit: string, description: string, emphasized: bool)

  const BestHeaderText: string := "Best candidate unit:"

  /** The text a line prints, without its styling: nothing for a blank line,
      the header text, or `(<unit>) <description>`. */
  function LineText(l: Line): (t: string)
    ensures t == [] <==> l.Blank?
    ensures l.BestHeader? ==> t == BestHeaderText
    ensures l.Entry? ==> StartsWith(t, "(" + l.unit + ") ") && EndsWith(t, l.description)
  {
    match l
    case Blank => ""
    case BestHeader => BestHeaderText
    case Entry(unit, description, _) =>
      Leads("(" + unit + ") ", description);
      Trails("(" + unit + ") ", description);
      "(" + unit + ") " + description
  }

  /** What one turn of the printing loop writes for the resolved record at
      index `us`: a blank line first when it is the second, the header first
      when it is the first, then its entry, emphasized when it is the first. */
  function Chunk(us: nat, d: DataWithDelta): seq<Line> {
    (if us == 1 then [Blank] else [])
    + (if us == 0 then [BestHeader] else [])
    + [Entry(d.unit, d.description, us == 0)]
  }

  /** The resolved part of the report, record by record. */
  function ResolvedLines(rs: seq<DataWithDelta>): seq<Line> {
    if rs == [] then []
    else ResolvedLines(rs[..|rs| - 1]) + Chunk(|rs| - 1, rs[|rs| - 1])
  }

  /** The unresolved part: one plain entry per record. */
  function UnresolvedLines(ds: seq<Data>): seq<Line> {
    if ds == [] then []
    else UnresolvedLines(ds[..|ds| - 1]) + [Entry(ds[|ds| - 1].unit, ds[|ds| - 1].description, false)]
  }

  /** The report: a blank line after any advisory, the resolved part, a blank
      line when both parts are present, and the unresolved part. */
  function Layout(noted: bool, some: seq<DataWithDelta>, none: seq<Data>): seq<Line> {
    BlankIf(noted) + ResolvedLines(some) + BlankIf(some != [] && none != []) + UnresolvedLines(none)
  }

  /** One blank line when `c` holds, none otherwise. */
  function BlankIf(c: bool): seq<Line> {
    if c then [Blank] else []
  }

  /** The printing loops over the ranked resolved records and the unresolved ones. */
  method Render(noted: bool, some: seq<DataWithDelta>, none: seq<Data>) returns (out: seq<Line>)
    ensures out == Layout(noted, some, none)
  {
    out := BlankIf(noted);
    var head := out;
    var us := 0;
    while us < |some|
      invariant 0 <= us <= |some|
      invariant out == head + ResolvedLines(some[..us])
    {
      ghost var before := out;
      var d := some[us];
      var isBest := us == 0;
      if us == 1 {
        out := out + [Blank];
      }
      if isBest {
        out := out + [BestHeader];
      }
      out := out + [Entry(d.unit, d.description, isBest)];
      ResolvedLinesSnoc(some, us, head, before, out);
      us := us + 1;
    }
    assert some[..us] == some;
    var middle := out;
    if some != [] && none != [] {
      out := out + [Blank];
    }
    var tail := out;
    var k := 0;
    while k < |none|
      invariant 0 <= k <= |none|
      invariant out == tail + UnresolvedLines(none[..k])
    {
      UnresolvedLinesSnoc(none, k, tail, out);
      out := out + [Entry(none[k].unit, none[k].description, false)];
      k := k + 1;
    }
    assert none[..k] == none;
    assert tail == middle + BlankIf(some != [] && none != []);
  }

  lemma ResolvedLinesSnoc(rs: seq<DataWithDelta>, us: nat, head: seq<Line>, before: seq<Line>, after: seq<Line>)
    requires us < |rs|
    requires before == head + ResolvedLines(rs[..us])
    requires after == before + Chunk(us, rs[us])
    ensures after == head + ResolvedLines(rs[..us + 1])
  {
    assert rs[..us + 1][..us] == rs[..us];
  }

  lemma UnresolvedLinesSnoc(ds: seq<Data>, k: nat, tail: seq<Line>, before: seq<Line>)
    requires k < |ds|
    requires before == tail + UnresolvedLines(ds[..k])
    ensures before + [Entry(ds[k].unit, ds[k].description, false)] == tail + UnresolvedLines(ds[..k + 1])
  {
    assert ds[..k + 1][..k] == ds[..k];
  }

  /** The (unit, description) of every entry line, in order. */
  function Entries(lines: seq<Line>): seq<(string, string)> {
    if lines == [] then []
    else
      var l := lines[|lines| - 1];
      Entries(lines[..|lines| - 1]) + (if l.Entry? then [(l.unit, l.description)] else [])
  }

  function ResolvedPairs(rs: seq<DataWithDelta>): (p: seq<(string, string)>)
    ensures |p| == |rs|
  {
    if rs == [] then [] else ResolvedPairs(rs[..|rs| - 1]) + [(rs[|rs| - 1].unit, rs[|rs| - 1].description)]
  }

  function UnresolvedPairs(ds: seq<Data>): (p: seq<(string, string)>)
    ensures |p| == |ds|
  {
    if ds == [] then [] else UnresolvedPairs(ds[..|ds| - 1]) + [(ds[|ds| - 1].unit, ds[|ds| - 1].description)]
  }

  lemma {:induction false} ResolvedPairsAt(rs: seq<DataWithDelta>, i: nat)
    requires i < |rs|
    ensures ResolvedPairs(rs)[i] == (rs[i].unit, rs[i].description)
  {
    if i < |rs| - 1 {
      ResolvedPairsAt(rs[..|rs| - 1], i);
    }
  }

  lemma {:induction false} UnresolvedPairsAt(ds: seq<Data>, i: nat)
    requires i < |ds|
    ensures UnresolvedPairs(ds)[i] == (ds[i].unit, ds[i].description)
  {
    if i < |ds| - 1 {
      UnresolvedPairsAt(ds[..|ds| - 1], i);
    }
  }

  lemma {:induction false} EntriesAppend(a: seq<Line>, b: seq<Line>)
    ensures Entries(a + b) == Entries(a) + Entries(b)
    decreases |b|
  {
    if b == [] {
      assert a + b == a;
    } else {
      assert (a + b)[..|a + b| - 1] == a + b[..|b| - 1];
      EntriesAppend(a, b[..|b| - 1]);
    }
  }

  lemma EntriesBlank()
    ensures Entries([Blank]) == []
  {
    assert [Blank][..0] == [];
  }

  lemma ChunkEntries(us: nat, d: DataWithDelta)
    ensures Entries(Chunk(us, d)) == [(d.unit, d.description)]
  {
    var e := Entry(d.unit, d.description, us == 0);
    if us == 0 {
      assert Chunk(us, d) == [BestHeader, e];
      assert [BestHeader, e][..1] == [BestHeader];
      assert [BestHeader][..0] == [];
    } else if us == 1 {
      assert Chunk(us, d) == [Blank, e];
      assert [Blank, e][..1] == [Blank];
      EntriesBlank();
    } else {
      assert Chunk(us, d) == [e];
      assert [e][..0] == [];
    }
  }

  lemma {:induction false} ResolvedLinesEntries(rs: seq<DataWithDelta>)
    ensures Entries(ResolvedLines(rs)) == ResolvedPairs(rs)
  {
    if rs != [] {
      var init := rs[..|rs| - 1];
      ResolvedLinesEntries(init);
      EntriesAppend(ResolvedLines(init), Chunk(|rs| - 1, rs[|rs| - 1]));
      ChunkEntries(|rs| - 1, rs[|rs| - 1]);
    }
  }

  lemma {:induction false} UnresolvedLinesEntries(ds: seq<Data>)
    ensures Entries(UnresolvedLines(ds)) == UnresolvedPairs(ds)
  {
    if ds != [] {
      var e := Entry(ds[|ds| - 1].unit, ds[|ds| - 1].description, false);
      UnresolvedLinesEntries(ds[..|ds| - 1]);
      EntriesAppend(UnresolvedLines(ds[..|ds| - 1]), [e]);
      assert [e][..0] == [];
    }
  }

  /** Every record appears exactly once in the report, as one entry: first
      the resolved ones in ranked order, then the unresolved ones in fixed order. */
  lemma LayoutEntries(noted: bool, some: seq<DataWithDelta>, none: seq<Data>)
    ensures Entries(Layout(noted, some, none)) == ResolvedPairs(some) + UnresolvedPairs(none)
  {
    BlankIfEntries(noted);
    BlankIfEntries(some != [] && none != []);
    ResolvedLinesEntries(some);
    UnresolvedLinesEntries(none);
    EntriesAround(BlankIf(noted), ResolvedLines(some), BlankIf(some != [] && none != []), UnresolvedLines(none));
  }

  /** Lines without entries add nothing to the entries around them. */
  lemma EntriesAround(lead: seq<Line>, r: seq<Line>, sep: seq<Line>, u: seq<Line>)
    requires Entries(lead) == [] && Entries(sep) == []
    ensures Entries(lead + r + sep + u) == Entries(r) + Entries(u)
  {
    EntriesAppend(lead + r + sep, u);
    EntriesAppend(lead + r, sep);
    EntriesAppend(lead, r);
    assert [] + Entries(r) == Entries(r);
    assert Entries(r) + [] == Entries(r);
  }

  lemma BlankIfEntries(c: bool)
    ensures Entries(BlankIf(c)) == []
  {
    if c {
      EntriesBlank();
    }
  }

  /** A shorter list of records renders to a prefix of the longer one's lines. */
  lemma {:induction false} ResolvedLinesPrefix(rs: seq<DataWithDelta>, j: nat)
    requires j <= |rs|
    ensures ResolvedLines(rs[..j]) <= ResolvedLines(rs)
    decreases |rs| - j
  {
    if j < |rs| {
      var init := rs[..|rs| - 1];
      assert init[..j] == rs[..j];
      ResolvedLinesPrefix(init, j);
    } else {
      assert rs[..j] == rs;
    }
  }

  /** The first lines of the resolved part: the header, the emphasized best
      entry and, when a second record follows, a blank line and its entry. */
  lemma ResolvedLinesStart(rs: seq<DataWithDelta>)
    requires rs != []
    ensures |ResolvedLines(rs)| >= 2
    ensures ResolvedLines(rs)[0] == BestHeader
    ensures ResolvedLines(rs)[1] == Entry(rs[0].unit, rs[0].description, true)
    ensures |rs| > 1 ==> |ResolvedLines(rs)| >= 4 && ResolvedLines(rs)[2] == Blank
                         && ResolvedLines(rs)[3] == Entry(rs[1].unit, rs[1].description, false)
  {
    var one := rs[..1];
    assert one[..0] == [];
    assert ResolvedLines(one) == Chunk(0, rs[0]);
    ResolvedLinesPrefix(rs, 1);
    if |rs| > 1 {
      var two := rs[..2];
      assert two[..1] == one;
      assert ResolvedLines(two) == Chunk(0, rs[0]) + Chunk(1, rs[1]);
      ResolvedLinesPrefix(rs, 2);
    }
  }

  /** Where the header goes: right before the emphasized entry of the best
      record, after the blank line that follows any advisory; the second
      record follows a blank line. */
  lemma LayoutBest(noted: bool, some: seq<DataWithDelta>, none: seq<Data>)
    requires some != []
    ensures var h := if noted then 1 else 0;
            && |Layout(noted, some, none)| >= h + 2
            && Layout(noted, some, none)[h] == BestHeader
            && Layout(noted, some, none)[h + 1] == Entry(some[0].unit, some[0].description, true)
            && (|some| > 1 ==>
                  |Layout(noted, some, none)| >= h + 4
                  && Layout(noted, some, none)[h + 2] == Blank
                  && Layout(noted, some, none)[h + 3] == Entry(some[1].unit, some[1].description, false))
  {
    ResolvedLinesStart(some);
    var lead := BlankIf(noted);
    var rest := BlankIf(some != [] && none != []) + UnresolvedLines(none);
    assert |lead| == if noted then 1 else 0;
    assert Layout(noted, some, none) == lead + ResolvedLines(some) + rest;
  }

  /** The number of blank lines and of marked lines (the header and the
      emphasized entry). */
  function CountBlank(lines: seq<Line>): nat {
    if lines == [] then 0 else CountBlank(lines[..|lines| - 1]) + (if lines[|lines| - 1].Blank? then 1 else 0)
  }

  function CountMarked(lines: seq<Line>): nat {
    if lines == [] then 0
    else
      var l := lines[|lines| - 1];
      CountMarked(lines[..|lines| - 1]) + (if l.BestHeader? || (l.Entry? && l.emphasized) then 1 else 0)
  }

  lemma {:induction false} CountsAppend(a: seq<Line>, b: seq<Line>)
    ensures CountBlank(a + b) == CountBlank(a) + CountBlank(b)
    ensures CountMarked(a + b) == CountMarked(a) + CountMarked(b)
    decreases |b|
  {
    if b == [] {
      assert a + b == a;
    } else {
      assert (a + b)[..|a + b| - 1] == a + b[..|b| - 1];
      CountsAppend(a, b[..|b| - 1]);
    }
  }

  lemma CountsOne(l: Line)
    ensures CountBlank([l]) == (if l.Blank? then 1 else 0)
    ensures CountMarked([l]) == (if l.BestHeader? || (l.Entry? && l.emphasized) then 1 else 0)
  {
    assert [l][..0] == [];
  }

  lemma ChunkCounts(us: nat, d: DataWithDelta)
    ensures CountBlank(Chunk(us, d)) == (if us == 1 then 1 else 0)
    ensures CountMarked(Chunk(us, d)) == (if us == 0 then 2 else 0)
  {
    var e := Entry(d.unit, d.description, us == 0);
    CountsOne(e);
    CountsOne(Blank);
    CountsOne(BestHeader);
    if us == 0 {
      CountsAppend([BestHeader], [e]);
      assert Chunk(us, d) == [BestHeader] + [e];
    } else if us == 1 {
      CountsAppend([Blank], [e]);
      assert Chunk(us, d) == [Blank] + [e];
    } else {
      assert Chunk(us, d) == [e];
    }
  }

  lemma {:induction false} ResolvedLinesCounts(rs: seq<DataWithDelta>)
    ensures CountBlank(ResolvedLines(rs)) == (if |rs| > 1 then 1 else 0)
    ensures CountMarked(ResolvedLines(rs)) == (if rs == [] then 0 else 2)
  {
    if rs != [] {
      var init := rs[..|rs| - 1];
      ResolvedLinesCounts(init);
      CountsAppend(ResolvedLines(init), Chunk(|rs| - 1, rs[|rs| - 1]));
      ChunkCounts(|rs| - 1, rs[|rs| - 1]);
    }
  }

  lemma {:induction false} UnresolvedCounts(ds: seq<Data>)
    ensures CountBlank(UnresolvedLines(ds)) == 0 && CountMarked(UnresolvedLines(ds)) == 0
  {
    if ds != [] {
      var e := Entry(ds[|ds| - 1].unit, ds[|ds| - 1].description, false);
      UnresolvedCounts(ds[..|ds| - 1]);
      CountsAppend(UnresolvedLines(ds[..|ds| - 1]), [e]);
      CountsOne(e);
    }
  }

  /**
   * Blank lines: one after the advisories, one between the best entry and the
   * rest, one between the two groups when both are present, and no other. The
   * header and the emphasized entry, two marked lines in all, appear exactly
   * when some record resolved.
   */
  lemma LayoutCounts(noted: bool, some: seq<DataWithDelta>, none: seq<Data>)
    ensures CountBlank(Layout(noted, some, none)) ==
            (if noted then 1 else 0) + (if |some| > 1 then 1 else 0) + (if some != [] && none != [] then 1 else 0)
    ensures CountMarked(Layout(noted, some, none)) == if some == [] then 0 else 2
  {
    var lead := BlankIf(noted);
    var sep := BlankIf(some != [] && none != []);
    var r := ResolvedLines(some);
    var u := UnresolvedLines(none);
    BlankIfCounts(noted);
    BlankIfCounts(some != [] && none != []);
    ResolvedLinesCounts(some);
    UnresolvedCounts(none);
    CountsAppend(lead, r);
    CountsAppend(lead + r, sep);
    CountsAppend(lead + r + sep, u);
    assert Layout(noted, some, none) == lead + r + sep + u;
  }

  lemma BlankIfCounts(c: bool)
    ensures CountBlank(BlankIf(c)) == (if c then 1 else 0) && CountMarked(BlankIf(c)) == 0
  {
    if c {
      CountsOne(Blank);
    }
  }
}
