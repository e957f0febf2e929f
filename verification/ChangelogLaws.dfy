/** The release section that was cut says exactly what went into it, and nothing else moved. */
module ChangelogLaws {
  import opened Outcomes
  import opened Text
  import opened Changelog

  predicate Clean(b: Lines) {
    forall i :: 0 <= i < |b| ==> !Marked(b[i])
  }

  // ---- lines ----

  lemma {:induction false} UpToAppend(m: Mark, a: Lines, b: Lines)
    requires forall i :: 0 <= i < |a| ==> !Is(m, a[i])
    ensures UpTo(m, a + b) == a + UpTo(m, b)
    decreases |a|
  {
    if a == [] {
      assert a + b == b;
    } else {
      assert (a + b)[1..] == a[1..] + b;
      UpToAppend(m, a[1..], b);
    }
  }

  /** Nothing beyond a marked line matters. */
  lemma {:induction false} UpToCut(m: Mark, a: Lines, b: Lines)
    requires b != [] && Is(m, b[0])
    ensures UpTo(m, a + b) == UpTo(m, a)
    decreases |a|
  {
    if a == [] {
      assert a + b == b;
    } else {
      assert (a + b)[1..] == a[1..] + b;
      UpToCut(m, a[1..], b);
    }
  }

  lemma NamesDiffer(c: Category, d: Category)
    ensures Name(c) == Name(d) ==> c == d
  {
    assert Name(c)[0] == Name(d)[0] ==> c == d;
  }

  lemma TitleFacts(c: Category)
    ensures Strip(Title(c)) == Title(c)
    ensures Lower(Title(c)) == Name(c)
  {
    var t := Title(c);
    assert !IsSpace(t[0]) && !IsSpace(t[|t| - 1]);
  }

  lemma HeadingFacts(c: Category)
    ensures Is(H3, Heading(c)) && !Is(H2, Heading(c))
    ensures CategoryOf(Heading(c)) == Some(c)
  {
    HeadingIsH3(c);
    TitleFacts(c);
    CategoryOfName(Heading(c), c);
  }

  lemma HeadingIsH3(c: Category)
    ensures Is(H3, Heading(c)) && !Is(H2, Heading(c))
    ensures Heading(c)[4..] == Title(c)
  {
    assert Heading(c)[..4] == "### ";
    assert Heading(c)[2] != "## "[2];
  }

  lemma CategoryOfName(line: string, c: Category)
    requires Is(H3, line) && Lower(Strip(line[4..])) == Name(c)
    ensures CategoryOf(line) == Some(c)
  {
    NamesDiffer(c, Added);
    NamesDiffer(c, Changed);
    NamesDiffer(c, Deprecated);
    NamesDiffer(c, Removed);
    NamesDiffer(c, Fixed);
  }

  // ---- stripping ----

  lemma {:induction false} FrontOf(pre: Lines, b: Lines)
    requires forall i :: 0 <= i < |pre| ==> LStrip(pre[i]) == ""
    requires b != [] && b[0] != "" && LStrip(b[0]) == b[0]
    ensures StripFront(pre + b) == b
    decreases |pre|
  {
    if pre == [] {
      assert pre + b == b == [b[0]] + b[1..];
    } else {
      assert (pre + b)[1..] == pre[1..] + b;
      FrontOf(pre[1..], b);
    }
  }

  lemma {:induction false} BackOf(b: Lines, post: Lines)
    requires forall i :: 0 <= i < |post| ==> RStrip(post[i]) == ""
    requires b != [] && b[|b| - 1] != "" && RStrip(b[|b| - 1]) == b[|b| - 1]
    ensures StripBack(b + post) == b
    decreases |post|
  {
    if post == [] {
      assert b + post == b == b[..|b| - 1] + [b[|b| - 1]];
    } else {
      assert (b + post)[..|b + post| - 1] == b + post[..|post| - 1];
      BackOf(b, post[..|post| - 1]);
    }
  }

  /** Empty lines around a stripped block are all that `strip` takes away. */
  lemma StripPadded(b: Lines, post: Lines)
    requires b != [] && Stripped(b)
    requires forall i :: 0 <= i < |post| ==> post[i] == ""
    ensures StripBlock([""] + b + post) == b
  {
    assert [""] + b + post == [""] + (b + post);
    FrontOf([""], b + post);
    BackOf(b, post);
  }

  lemma LStripStarts(s: string)
    ensures LStrip(s) != "" ==> !IsSpace(LStrip(s)[0])
  {
    LStripSpec(s);
  }

  lemma {:induction false} FrontShape(ls: Lines)
    ensures var r := StripFront(ls);
      && |r| <= |ls|
      && (ls != [] && ls[0] == "" ==> |r| < |ls|)
      && (r != [] ==> r[0] != "" && !IsSpace(r[0][0]) && r[1..] == ls[|ls| - |r| + 1..])
  {
    if ls != [] {
      LStripStarts(ls[0]);
      if LStrip(ls[0]) == "" {
        FrontShape(ls[1..]);
      }
    }
  }

  lemma {:induction false} BackShape(ls: Lines)
    ensures var r := StripBack(ls);
      && |r| <= |ls|
      && (r != [] ==>
            && var last := r[|r| - 1];
            && last != "" && !IsSpace(last[|last| - 1]) && last <= ls[|r| - 1]
            && r[..|r| - 1] == ls[..|r| - 1])
      && (ls != [] && ls[0] != "" && !IsSpace(ls[0][0]) ==> r != [])
    decreases |ls|
  {
    if ls != [] {
      RStripSpec(ls[|ls| - 1]);
      if RStrip(ls[|ls| - 1]) == "" {
        BackShape(ls[..|ls| - 1]);
      }
    }
  }

  lemma StripBlockShape(ls: Lines)
    ensures |StripBlock(ls)| <= |ls|
    ensures ls != [] && ls[0] == "" ==> |StripBlock(ls)| < |ls|
    ensures Stripped(StripBlock(ls))
  {
    var front, b := StripFront(ls), StripBlock(ls);
    FrontShape(ls);
    BackShape(front);
    if |b| > 1 {
      assert b[..|b| - 1][0] == front[..|b| - 1][0];
    }
  }

  /** In a text without heading lines, stripping can turn only the first line into one, by taking
      away the indentation that kept it from being a heading. */
  lemma OnlyTheFirstLine(ls: Lines)
    requires Clean(ls)
    ensures Clean(StripBlock(ls)) <==> StripBlock(ls) == [] || !Marked(StripBlock(ls)[0])
  {
    var front, b := StripFront(ls), StripBlock(ls);
    FrontShape(ls);
    BackShape(front);
    if b != [] && !Marked(b[0]) {
      forall i | 0 < i < |b|
        ensures !Marked(b[i])
      {
        assert front[i] == front[1..][i - 1] == ls[|ls| - |front| + i];
        if i < |b| - 1 {
          assert b[i] == b[..|b| - 1][i] == front[..|b| - 1][i];
        } else {
          PrefixUnmarked(b[i], front[i]);
        }
      }
    }
  }

  lemma PrefixUnmarked(a: string, b: string)
    requires a <= b && !Marked(b)
    ensures !Marked(a)
  {
  }

  lemma MarkedLooksLikeHeading(l: string)
    requires Marked(l)
    ensures LooksLikeHeading(l)
  {
    assert if Is(H2, l) then l[..3] == "## " else l[..4] == "### ";
    assert if Is(H2, l) then l[..2] == "##" && l[2] == ' ' else l[..3] == "###" && l[3] == ' ';
  }

  /** The fragment check before stripping is at least as strict as the splitter's. */
  lemma CheckedFragmentIsClean(f: FragmentFile)
    requires !Problem(f)
    ensures Clean(f.lines)
  {
    forall l | Marked(l)
      ensures LooksLikeHeading(l)
    {
      MarkedLooksLikeHeading(l);
    }
  }

  // ---- joining ----

  lemma {:induction false} JoinShape(blocks: seq<Lines>)
    requires forall i :: 0 <= i < |blocks| ==> Stripped(blocks[i])
    ensures Stripped(Join(blocks))
    ensures Clean(Join(blocks)) <==> forall i :: 0 <= i < |blocks| ==> Clean(blocks[i])
    decreases |blocks|
  {
    if blocks != [] {
      var init, last := blocks[..|blocks| - 1], blocks[|blocks| - 1];
      JoinShape(init);
      ExtendShape(Join(init), last);
    }
  }

  lemma ExtendShape(before: Lines, block: Lines)
    requires Stripped(before) && Stripped(block)
    ensures Stripped(Extend(before, block))
    ensures Clean(Extend(before, block)) <==> Clean(before) && Clean(block)
  {
    var out := Extend(before, block);
    if before != [] && block != [] {
      CleanConcat(before + Gap(before, block), block);
      CleanConcat(before, Gap(before, block));
    }
  }

  lemma CleanConcat(a: Lines, b: Lines)
    ensures Clean(a + b) <==> Clean(a) && Clean(b)
  {
    if Clean(a + b) {
      forall i | 0 <= i < |a|
        ensures !Marked(a[i])
      {
        assert (a + b)[i] == a[i];
      }
      forall i | 0 <= i < |b|
        ensures !Marked(b[i])
      {
        assert (a + b)[|a| + i] == b[i];
      }
    }
  }

  /** The text joined so far, before block `k`. */
  function Before(blocks: seq<Lines>, k: nat): Lines
    requires k <= |blocks|
  {
    Join(blocks[..k])
  }

  lemma BeforeNext(blocks: seq<Lines>, k: nat)
    requires k < |blocks|
    ensures Before(blocks, k + 1) == Extend(Before(blocks, k), blocks[k])
    ensures Before(blocks, k) <= Before(blocks, k + 1)
  {
    assert blocks[..k + 1][..k] == blocks[..k];
  }

  lemma {:induction false} BeforeGrows(blocks: seq<Lines>, k: nat)
    requires k <= |blocks|
    ensures Before(blocks, k) <= Join(blocks)
    decreases |blocks| - k
  {
    if k == |blocks| {
      assert blocks[..k] == blocks;
    } else {
      BeforeNext(blocks, k);
      BeforeGrows(blocks, k + 1);
    }
  }

  /** Every non-empty block appears in the joined text whole and in order, right after what was
      joined before it, with at most one empty line between them and nothing else anywhere. */
  lemma BlocksAreConserved(blocks: seq<Lines>, k: nat)
    requires k < |blocks| && blocks[k] != []
    ensures Before(blocks, k + 1) <= Join(blocks) == Before(blocks, |blocks|)
    ensures exists gap :: (gap == [] || gap == [""]) && Before(blocks, k + 1) == Before(blocks, k) + gap + blocks[k]
  {
    BeforeNext(blocks, k);
    BeforeGrows(blocks, k + 1);
    assert blocks[..|blocks|] == blocks;
    var before := Before(blocks, k);
    var gap := if before == [] then [] else Gap(before, blocks[k]);
    assert Before(blocks, k + 1) == before + gap + blocks[k];
  }

  // ---- the merged bodies ----

  /** Items in category order, under their own headings: no category twice, every body non-empty
      and stripped. */
  ghost predicate WellFormed(items: seq<Item>) {
    && (forall i :: 0 <= i < |items| ==> WellFormedItem(items[i]))
    && Distinct(items)
  }

  ghost predicate Distinct(items: seq<Item>) {
    forall i, j :: 0 <= i < j < |items| ==> items[i].category != items[j].category
  }

  ghost predicate WellFormedItem(x: Item) {
    && x.body != [] && Stripped(x.body)
    && Is(H3, x.heading) && !Is(H2, x.heading) && CategoryOf(x.heading) == Some(x.category)
  }

  predicate AllClean(items: seq<Item>) {
    forall i :: 0 <= i < |items| ==> Clean(items[i].body)
  }

  function MapOf(items: seq<Item>, acc: Bodies): Bodies {
    if items == [] then acc else MapOf(items[1..], acc[items[0].category := items[0].body])
  }

  ghost predicate Has(items: seq<Item>, c: Category) {
    exists i :: 0 <= i < |items| && items[i].category == c
  }

  lemma HasCons(items: seq<Item>, c: Category)
    requires items != []
    ensures Has(items, c) <==> items[0].category == c || Has(items[1..], c)
  {
    var rest := items[1..];
    if Has(rest, c) {
      var i :| 0 <= i < |rest| && rest[i].category == c;
      assert items[i + 1].category == c;
    }
    if Has(items, c) && items[0].category != c {
      var i :| 0 <= i < |items| && items[i].category == c;
      assert rest[i - 1].category == c;
    }
  }

  lemma {:induction false} MapOfSpec(items: seq<Item>, acc: Bodies, c: Category)
    requires Distinct(items)
    ensures c in MapOf(items, acc) <==> c in acc || Has(items, c)
    ensures forall i :: 0 <= i < |items| && items[i].category == c ==> MapOf(items, acc)[c] == items[i].body
    ensures c in acc && !Has(items, c) ==> MapOf(items, acc)[c] == acc[c]
    decreases |items|
  {
    if items != [] {
      var rest := items[1..];
      HasCons(items, c);
      MapOfSpec(rest, acc[items[0].category := items[0].body], c);
      if items[0].category == c {
        assert !Has(rest, c);
      }
      assert forall i :: 0 < i < |items| ==> items[i] == rest[i - 1];
    }
  }

  /** Every item is one of the bodies, under its own category. */
  ghost predicate Drawn(items: seq<Item>, bodies: Bodies, cats: seq<Category>) {
    forall i :: 0 <= i < |items| ==>
      items[i].category in cats && items[i].category in bodies && items[i].body == bodies[items[i].category]
  }

  lemma {:induction false} ItemsAreDrawn(bodies: Bodies, cats: seq<Category>)
    ensures Drawn(Items(bodies, cats), bodies, cats)
    decreases |cats|
  {
    if cats != [] {
      ItemsAreDrawn(bodies, cats[..|cats| - 1]);
    }
  }

  lemma {:induction false} ItemsAreWellFormed(bodies: Bodies, cats: seq<Category>)
    requires forall i, j :: 0 <= i < j < |cats| ==> cats[i] != cats[j]
    requires forall c :: c in bodies ==> bodies[c] != [] && Stripped(bodies[c])
    ensures WellFormed(Items(bodies, cats))
    decreases |cats|
  {
    if cats != [] {
      var init, last := cats[..|cats| - 1], cats[|cats| - 1];
      ItemsAreWellFormed(bodies, init);
      ItemsAreDrawn(bodies, init);
      HeadingFacts(last);
      assert last !in init;
    }
  }

  lemma {:induction false} ItemsHaveAll(bodies: Bodies, cats: seq<Category>, c: Category)
    requires c in cats && c in bodies
    ensures Has(Items(bodies, cats), c)
    decreases |cats|
  {
    var init, last := cats[..|cats| - 1], cats[|cats| - 1];
    var before, items := Items(bodies, init), Items(bodies, cats);
    if c == last {
      assert items[|items| - 1].category == c;
    } else {
      ItemsHaveAll(bodies, init, c);
      var i :| 0 <= i < |before| && before[i].category == c;
      assert items[i].category == c;
    }
  }

  /** Reading the items back gives the bodies. */
  lemma MapOfItems(bodies: Bodies, cats: seq<Category>)
    requires forall c :: c in bodies ==> c in cats
    requires Distinct(Items(bodies, cats))
    ensures MapOf(Items(bodies, cats), map[]) == bodies
  {
    var items := Items(bodies, cats);
    ItemsAreDrawn(bodies, cats);
    forall c: Category
      ensures c in MapOf(items, map[]) <==> c in bodies
      ensures c in bodies ==> MapOf(items, map[])[c] == bodies[c]
    {
      MapOfSpec(items, map[], c);
      if c in bodies {
        ItemsHaveAll(bodies, cats, c);
      }
    }
  }

  lemma CleanItems(bodies: Bodies, cats: seq<Category>)
    requires forall c :: c in bodies ==> c in cats
    ensures AllClean(Items(bodies, cats)) <==> forall c :: c in bodies ==> Clean(bodies[c])
  {
    var items := Items(bodies, cats);
    ItemsAreDrawn(bodies, cats);
    if AllClean(items) {
      forall c | c in bodies
        ensures Clean(bodies[c])
      {
        ItemsHaveAll(bodies, cats, c);
      }
    }
  }

  lemma ItemsAreTheBodies(bodies: Bodies, cats: seq<Category>)
    requires forall i, j :: 0 <= i < j < |cats| ==> cats[i] != cats[j]
    requires forall c :: c in bodies ==> c in cats && bodies[c] != [] && Stripped(bodies[c])
    ensures WellFormed(Items(bodies, cats))
    ensures MapOf(Items(bodies, cats), map[]) == bodies
    ensures AllClean(Items(bodies, cats)) <==> forall c :: c in bodies ==> Clean(bodies[c])
  {
    ItemsAreWellFormed(bodies, cats);
    MapOfItems(bodies, cats);
    CleanItems(bodies, cats);
  }

  // ---- splitting what was rendered ----

  lemma Regroup(a: Lines, b: Lines, c: Lines)
    ensures (a + b) + c == a + (b + c)
  {
  }

  lemma {:induction false} FlattenCons(blocks: seq<Lines>)
    requires blocks != []
    ensures Flatten(blocks) == blocks[0] + Flatten(blocks[1..])
    decreases |blocks|
  {
    if |blocks| == 1 {
      assert blocks[..0] == [] && blocks[1..] == [];
    } else {
      var init, last := blocks[..|blocks| - 1], blocks[|blocks| - 1];
      FlattenCons(init);
      FlattenSnoc(init[1..], last);
      assert blocks[1..] == init[1..] + [last] && blocks == init + [last];
      FlattenSnoc(init, last);
      Regroup(blocks[0], Flatten(init[1..]), last);
    }
  }

  lemma RenderCons(items: seq<Item>)
    requires items != []
    ensures Render(items) == [items[0].heading] + ([""] + items[0].body + [""]) + Render(items[1..])
  {
    FlattenCons(Rendered(items));
    assert Rendered(items)[1..] == Rendered(items[1..]);
    var h, body := items[0].heading, items[0].body;
    assert [h, ""] + body + [""] == [h] + ([""] + body + [""]);
  }

  /** The lines of a rendered section, up to whatever would end it. `tail` is the empty line left
      over when the section is the last thing in the file. */
  function Section(items: seq<Item>, tail: Lines): Lines {
    UpTo(H2, Render(items) + tail)
  }

  /** One heading with its body, whatever follows. */
  lemma SectionOfBlock(h: string, inner: Lines, after: Lines)
    requires !Is(H2, h) && Clean(inner)
    ensures UpTo(H2, [h] + inner + after) == [h] + inner + UpTo(H2, after)
  {
    UpToAppend(H2, [h] + inner, after);
  }

  lemma PartsOfBlock(h: string, inner: Lines, after: Lines)
    requires Is(H3, h) && Clean(inner) && (after != [] ==> Is(H3, after[0]))
    ensures var ls := [h] + inner + after;
      ls[0] == h && Parts(ls) == [Part(h, inner)] + Parts(after)
  {
    var ls := [h] + inner + after;
    assert ls[1..] == inner + after;
    UpToAppend(H3, inner, after);
    assert UpTo(H3, after) == [];
    assert inner + [] == inner;
    assert ls[1 + |inner|..] == after;
  }

  lemma StartsUnmarked(h: string, ls: Lines)
    requires ls != [] && ls[0] == h && !Is(H2, h)
    ensures UpTo(H2, ls) != [] && UpTo(H2, ls)[0] == h
  {
  }

  lemma SectionStartsWithHeading(items: seq<Item>, tail: Lines)
    requires items != [] && WellFormedItem(items[0])
    ensures Section(items, tail) != [] && Section(items, tail)[0] == items[0].heading
  {
    RenderCons(items);
    StartsUnmarked(items[0].heading, Render(items) + tail);
  }

  lemma EmptyLinesAreClean(body: Lines, tail: Lines)
    requires Clean(body) && (tail == [] || tail == [""])
    ensures Clean([""] + body + [""] + tail) && Clean([""] + body + [""])
    ensures UpTo(H2, tail) == tail
  {
    assert Clean([""]);
    CleanConcat([""], body);
    CleanConcat([""] + body, [""]);
    CleanConcat([""] + body + [""], tail);
  }

  /** What is left once the first item has been split off. */
  function Rest(items: seq<Item>, tail: Lines): Lines
    requires items != []
  {
    if |items| == 1 then [] else Section(items[1..], tail)
  }

  function FirstPart(items: seq<Item>, tail: Lines): Part
    requires items != []
  {
    Part(items[0].heading, [""] + items[0].body + [""] + if |items| == 1 then tail else [])
  }

  lemma BlockSplitsOff(h: string, inner: Lines, after: Lines)
    requires Is(H3, h) && !Is(H2, h) && Clean(inner)
    requires UpTo(H2, after) != [] ==> Is(H3, UpTo(H2, after)[0])
    ensures var s := UpTo(H2, [h] + inner + after);
      s != [] && s[0] == h && Parts(s) == [Part(h, inner)] + Parts(UpTo(H2, after))
  {
    SectionOfBlock(h, inner, after);
    PartsOfBlock(h, inner, UpTo(H2, after));
  }

  /** What follows the first item. */
  function After(items: seq<Item>, tail: Lines): Lines
    requires items != []
  {
    if |items| == 1 then [] else Render(items[1..]) + tail
  }

  lemma RenderFirst(items: seq<Item>, tail: Lines)
    requires items != []
    ensures Render(items) + tail == [items[0].heading] + FirstPart(items, tail).body + After(items, tail)
  {
    RenderCons(items);
    if |items| == 1 {
      assert items[1..] == [] && Render(items[1..]) == [];
    }
  }

  lemma RestIsHeaded(items: seq<Item>, tail: Lines)
    requires items != [] && WellFormed(items)
    ensures Rest(items, tail) == UpTo(H2, After(items, tail))
    ensures Rest(items, tail) != [] ==> Is(H3, Rest(items, tail)[0])
  {
    if |items| > 1 {
      assert items[1..][0] == items[1] && WellFormedItem(items[1]);
      SectionStartsWithHeading(items[1..], tail);
    }
  }

  /** A clean first item splits off whole. */
  lemma CleanItemSplitsOff(items: seq<Item>, tail: Lines)
    requires items != [] && WellFormed(items) && Clean(items[0].body) && (tail == [] || tail == [""])
    ensures Section(items, tail) != [] && Is(H3, Section(items, tail)[0])
    ensures Rest(items, tail) != [] ==> Is(H3, Rest(items, tail)[0])
    ensures Parts(Section(items, tail)) == [FirstPart(items, tail)] + Parts(Rest(items, tail))
  {
    assert WellFormedItem(items[0]);
    EmptyLinesAreClean(items[0].body, tail);
    RenderFirst(items, tail);
    RestIsHeaded(items, tail);
    var inner := FirstPart(items, tail).body;
    assert Clean(inner) by {
      assert [""] + items[0].body + [""] + [] == [""] + items[0].body + [""];
    }
    BlockSplitsOff(items[0].heading, inner, After(items, tail));
  }

  lemma {:induction false} UpToIsClean(m: Mark, ls: Lines)
    ensures forall i :: 0 <= i < |UpTo(m, ls)| ==> !Is(m, UpTo(m, ls)[i])
  {
    if ls != [] && !Is(m, ls[0]) {
      UpToIsClean(m, ls[1..]);
    }
  }

  /** A block with a heading line in its body comes back shorter. */
  lemma DirtyBlockIsCut(h: string, body: Lines, after: Lines, j: nat)
    requires Is(H3, h) && !Is(H2, h) && j < |body| && Marked(body[j])
    ensures var s := UpTo(H2, [h] + ([""] + body + [""]) + after);
      && s != [] && s[0] == h
      && var parts := Parts(s);
      parts != [] && parts[0].heading == h && |StripBlock(parts[0].body)| < |body|
  {
    var whole := [h] + ([""] + body + [""]) + after;
    var s := UpTo(H2, whole);
    StartsUnmarked(h, whole);
    assert whole[1] == "" && whole[j + 2] == body[j];
    var cut := UpTo(H3, s[1..]);
    UpToIsClean(H2, whole);
    UpToIsClean(H3, s[1..]);
    assert forall i :: 0 <= i < |cut| ==> cut[i] == whole[i + 1];
    StripBlockShape(cut);
  }

  /** What has been collected is never overwritten. */
  lemma {:induction false} CollectKeeps(parts: seq<Part>, acc: Bodies, c: Category)
    requires Headed(parts) && c in acc
    ensures Collect(parts, acc).Success? ==> c in Collect(parts, acc).value && Collect(parts, acc).value[c] == acc[c]
    decreases |parts|
  {
    if parts != [] {
      var category := CategoryOf(parts[0].heading);
      if category.Some? && category.value !in acc {
        CollectKeeps(parts[1..], acc[category.value := StripBlock(parts[0].body)], c);
      }
    }
  }

  /** `Collect` of the parts of a rendered section. */
  function Recovered(items: seq<Item>, tail: Lines, acc: Bodies): Result<Bodies> {
    var s := Section(items, tail);
    if s != [] && !Is(H3, s[0]) then Failure(LooseText) else
    PartsAreHeaded(s);
    Collect(Parts(s), acc)
  }

  /** Collecting past a clean first item. */
  lemma RecoverCleanHead(items: seq<Item>, tail: Lines, acc: Bodies)
    requires items != [] && WellFormed(items) && Clean(items[0].body) && (tail == [] || tail == [""])
    requires items[0].category !in acc
    ensures var next := acc[items[0].category := items[0].body];
      Recovered(items, tail, acc) == if |items| == 1 then Success(next) else Recovered(items[1..], tail, next)
  {
    var x := items[0];
    assert WellFormedItem(x);
    CleanItemSplitsOff(items, tail);
    PartsAreHeaded(Section(items, tail));
    PartsAreHeaded(Rest(items, tail));
    CollectBlock(x, if |items| == 1 then tail else [], Parts(Rest(items, tail)), acc);
  }

  lemma WellFormedTail(items: seq<Item>)
    requires items != [] && WellFormed(items)
    ensures WellFormed(items[1..])
    ensures forall i :: 0 <= i < |items[1..]| ==> items[1..][i].category != items[0].category
  {
    assert forall i :: 0 <= i < |items[1..]| ==> items[1..][i] == items[i + 1];
  }

  /** Splitting a rendered section gives back exactly the items it was rendered from, if and only
      if no body has a heading line in it. */
  lemma {:induction false} SplitRendered(items: seq<Item>, tail: Lines, acc: Bodies)
    requires items != [] && WellFormed(items) && (tail == [] || tail == [""])
    requires forall i :: 0 <= i < |items| ==> items[i].category !in acc
    ensures Recovered(items, tail, acc) == Success(MapOf(items, acc)) <==> AllClean(items)
    decreases |items|
  {
    if Clean(items[0].body) {
      RecoverCleanHead(items, tail, acc);
      AllCleanCons(items);
      if |items| > 1 {
        WellFormedTail(items);
        SplitRendered(items[1..], tail, acc[items[0].category := items[0].body]);
      }
    } else {
      SplitDirtyHead(items, tail, acc);
    }
  }

  lemma AllCleanCons(items: seq<Item>)
    requires items != []
    ensures AllClean(items) <==> Clean(items[0].body) && AllClean(items[1..])
  {
    assert forall i :: 0 < i < |items| ==> items[i] == items[1..][i - 1];
    assert forall i :: 0 <= i < |items[1..]| ==> items[1..][i] == items[i + 1];
  }

  lemma CollectBlock(x: Item, extra: Lines, rest: seq<Part>, acc: Bodies)
    requires WellFormedItem(x) && x.category !in acc && Headed(rest)
    requires extra == [] || extra == [""]
    ensures Headed([Part(x.heading, [""] + x.body + [""] + extra)] + rest)
    ensures Collect([Part(x.heading, [""] + x.body + [""] + extra)] + rest, acc) ==
            Collect(rest, acc[x.category := x.body])
  {
    assert [""] + x.body + [""] + extra == [""] + x.body + ([""] + extra);
    StripPadded(x.body, [""] + extra);
    var parts := [Part(x.heading, [""] + x.body + [""] + extra)] + rest;
    assert parts[1..] == rest;
  }

  /** A first part that lost lines cannot give its item back. */
  lemma CutPartIsLost(x: Item, parts: seq<Part>, acc: Bodies, other: Bodies)
    requires Headed(parts) && parts != [] && parts[0].heading == x.heading && WellFormedItem(x)
    requires |StripBlock(parts[0].body)| < |x.body|
    requires x.category in other && other[x.category] == x.body
    ensures Collect(parts, acc) != Success(other)
  {
    if x.category !in acc {
      CollectKeeps(parts[1..], acc[x.category := StripBlock(parts[0].body)], x.category);
    }
  }

  /** A section whose first item has a heading line in its body splits into a first part that lost
      lines. */
  lemma DirtySection(items: seq<Item>, tail: Lines)
    requires items != [] && WellFormedItem(items[0]) && !Clean(items[0].body)
    ensures var s := Section(items, tail);
      && s != [] && s[0] == items[0].heading
      && var parts := Parts(s);
      parts != [] && parts[0].heading == items[0].heading && |StripBlock(parts[0].body)| < |items[0].body|
  {
    var x := items[0];
    var j :| 0 <= j < |x.body| && Marked(x.body[j]);
    RenderCons(items);
    var after := Render(items[1..]) + tail;
    assert Render(items) + tail == [x.heading] + ([""] + x.body + [""]) + after;
    DirtyBlockIsCut(x.heading, x.body, after, j);
  }

  lemma SplitDirtyHead(items: seq<Item>, tail: Lines, acc: Bodies)
    requires items != [] && WellFormed(items) && !Clean(items[0].body)
    ensures Recovered(items, tail, acc) != Success(MapOf(items, acc))
  {
    var x := items[0];
    assert WellFormedItem(x);
    DirtySection(items, tail);
    PartsAreHeaded(Section(items, tail));
    MapOfSpec(items, acc, x.category);
    HasCons(items, x.category);
    CutPartIsLost(x, Parts(Section(items, tail)), acc, MapOf(items, acc));
  }

  // ---- the released document ----

  /** The new section of an assembled changelog: what follows its header, up to the next release. */
  function NewSection(out: Lines, header: nat): Lines
    requires header < |out|
  {
    UpTo(H2, out[header + 1..])
  }

  lemma BlocksAreStripped(existing: Bodies, fragments: seq<Fragment>, c: Category)
    requires forall d :: d in existing ==> Stripped(existing[d])
    requires forall i :: 0 <= i < |fragments| ==> Stripped(fragments[i].text)
    ensures forall i :: 0 <= i < |Blocks(existing, fragments, c)| ==> Stripped(Blocks(existing, fragments, c)[i])
  {
    TextsAreStripped(fragments, c);
  }

  lemma {:induction false} TextsAreStripped(fragments: seq<Fragment>, c: Category)
    requires forall i :: 0 <= i < |fragments| ==> Stripped(fragments[i].text)
    ensures forall i :: 0 <= i < |TextsOf(fragments, c)| ==> Stripped(TextsOf(fragments, c)[i])
  {
    if fragments != [] {
      TextsAreStripped(fragments[1..], c);
    }
  }

  lemma {:induction false} CollectedAreStripped(parts: seq<Part>, acc: Bodies)
    requires Headed(parts) && forall c :: c in acc ==> Stripped(acc[c])
    ensures Collect(parts, acc).Success? ==> forall c :: c in Collect(parts, acc).value ==>
      Stripped(Collect(parts, acc).value[c])
    decreases |parts|
  {
    if parts != [] {
      var category := CategoryOf(parts[0].heading);
      StripBlockShape(parts[0].body);
      if category.Some? && category.value !in acc {
        CollectedAreStripped(parts[1..], acc[category.value := StripBlock(parts[0].body)]);
      }
    }
  }

  lemma SplitIsStripped(ls: Lines)
    ensures SplitSection(ls).Success? ==> forall c :: c in SplitSection(ls).value ==>
      Stripped(SplitSection(ls).value[c])
  {
    var rest := ls[|UpTo(H3, ls)|..];
    PartsAreHeaded(rest);
    CollectedAreStripped(Parts(rest), map[]);
  }

  lemma HeaderIsH2(version: string, date: string)
    ensures Is(H2, Header(version, date)) && "## [" + version + "]" <= Header(version, date)
  {
    assert Header(version, date) == "## [" + version + "]" + (" - " + date) by {
      assert "] - " == "]" + " - ";
    }
    assert ("## [" + version)[..3] == "## ";
  }

  /** Splitting the section that `Render(items) + after` makes is splitting the items themselves. */
  lemma NewSectionSplits(items: seq<Item>, after: Lines)
    requires items != [] && WellFormed(items)
    requires after == [""] || (after != [] && Is(H2, after[0]))
    ensures SplitSection(UpTo(H2, [""] + (Render(items) + after))) == Success(MapOf(items, map[])) <==> AllClean(items)
  {
    var tail := if after == [""] then [""] else [];
    assert UpTo(H2, Render(items) + after) == Section(items, tail) by {
      if after != [""] {
        UpToCut(H2, Render(items), after);
        assert Render(items) + [] == Render(items);
      }
    }
    var s := Section(items, tail);
    assert !Is(H2, "") && !Is(H3, "");
    UpToAppend(H2, [""], Render(items) + after);
    assert WellFormedItem(items[0]);
    SectionStartsWithHeading(items, tail);
    UpToAppend(H3, [""], s);
    assert UpTo(H3, s) == [];
    assert UpTo(H3, [""] + s) == [""] && ([""] + s)[1..] == s;
    assert !Loose([""]);
    SplitRendered(items, tail, map[]);
  }

  /** No block that goes into a release has a heading line in it. */
  ghost predicate BlocksClean(existing: Bodies, fragments: seq<Fragment>) {
    forall c, i :: 0 <= i < |Blocks(existing, fragments, c)| ==> Clean(Blocks(existing, fragments, c)[i])
  }

  lemma MergedFacts(existing: Bodies, fragments: seq<Fragment>)
    requires forall c :: c in existing ==> Stripped(existing[c])
    requires forall i :: 0 <= i < |fragments| ==> Stripped(fragments[i].text)
    ensures var merged := MergedBodies(existing, fragments);
      && (forall c :: c in merged ==> c in CATEGORIES && merged[c] != [] && Stripped(merged[c]))
      && ((forall c :: c in merged ==> Clean(merged[c])) <==> BlocksClean(existing, fragments))
  {
    var merged := MergedBodies(existing, fragments);
    forall c: Category
      ensures c in CATEGORIES && Stripped(Join(Blocks(existing, fragments, c)))
      ensures (c in merged ==> Clean(merged[c])) <==>
        forall i :: 0 <= i < |Blocks(existing, fragments, c)| ==> Clean(Blocks(existing, fragments, c)[i])
    {
      EveryCategory(c);
      BlocksAreStripped(existing, fragments, c);
      JoinShape(Blocks(existing, fragments, c));
    }
  }

  lemma CategoriesDiffer()
    ensures forall i, j :: 0 <= i < j < |CATEGORIES| ==> CATEGORIES[i] != CATEGORIES[j]
  {
  }

  ghost predicate Released(ls: Lines, fragments: seq<Fragment>, version: string, date: string, dateOk: bool,
                           frame: Frame, existing: Bodies, out: Lines) {
    && (forall i :: 0 <= i < |fragments| ==> Stripped(fragments[i].text))
    && Assemble(ls, fragments, version, date, dateOk) == Success(out)
    && FrameOf(ls) == Some(frame)
    && SplitSection(frame.body) == Success(existing)
  }

  /** The document is its frame put together again, and only the section between changes. */
  lemma NothingElseMoves(ls: Lines, frame: Frame)
    requires FrameOf(ls) == Some(frame)
    ensures ls == frame.before + [frame.line] + frame.body + frame.rest
    ensures frame.rest != [] ==> Is(H2, frame.rest[0])
  {
    var u := FindUnreleased(ls).value;
    var tail := ls[u + 1..];
    assert ls == ls[..u] + [ls[u]] + tail;
    assert tail == frame.body + frame.rest;
  }

  lemma DocumentParts(frame: Frame, version: string, date: string, section: Lines)
    ensures var out := Document(frame, version, date, section);
      var header := |frame.before| + 4;
      && header < |out| && out[header] == Header(version, date)
      && out[header + 1..] == [""] + (section + frame.After())
  {
  }

  /** Round trip. Splitting the newly cut section recovers exactly the merged category-to-body map,
      if and only if no block that went into it contains a heading line. */
  lemma RoundTrip(ls: Lines, fragments: seq<Fragment>, version: string, date: string, dateOk: bool,
                  frame: Frame, existing: Bodies, out: Lines)
    requires Released(ls, fragments, version, date, dateOk, frame, existing, out)
    ensures var header := |frame.before| + 4;
      && header < |out| && out[header] == Header(version, date)
      && (SplitSection(NewSection(out, header)) == Success(MergedBodies(existing, fragments)) <==>
          BlocksClean(existing, fragments))
  {
    var merged := MergedBodies(existing, fragments);
    var items := Items(merged, CATEGORIES);
    SplitIsStripped(frame.body);
    MergedFacts(existing, fragments);
    CategoriesDiffer();
    ItemsAreTheBodies(merged, CATEGORIES);
    NothingElseMoves(ls, frame);
    DocumentParts(frame, version, date, Render(items));
    NewSectionSplits(items, frame.After());
  }

  // ---- when the condition holds ----

  /** A block can only break the round trip by its first line. */
  predicate Opens(b: Lines) {
    b == [] || !Marked(b[0])
  }

  lemma {:induction false} CollectedAreCleanBelow(parts: seq<Part>, acc: Bodies)
    requires Headed(parts) && (forall i :: 0 <= i < |parts| ==> Clean(parts[i].body))
    requires forall c :: c in acc ==> (Clean(acc[c]) <==> Opens(acc[c]))
    ensures Collect(parts, acc).Success? ==>
      forall c :: c in Collect(parts, acc).value ==>
        (Clean(Collect(parts, acc).value[c]) <==> Opens(Collect(parts, acc).value[c]))
    decreases |parts|
  {
    if parts != [] {
      var category := CategoryOf(parts[0].heading);
      OnlyTheFirstLine(parts[0].body);
      if category.Some? && category.value !in acc {
        CollectedAreCleanBelow(parts[1..], acc[category.value := StripBlock(parts[0].body)]);
      }
    }
  }

  lemma {:induction false} PartsAreClean(ls: Lines)
    requires ls != [] ==> Is(H3, ls[0])
    requires forall i :: 0 <= i < |ls| ==> !Is(H2, ls[i])
    ensures forall i :: 0 <= i < |Parts(ls)| ==> Clean(Parts(ls)[i].body)
    decreases |ls|
  {
    if ls != [] {
      var body := UpTo(H3, ls[1..]);
      UpToIsClean(H3, ls[1..]);
      assert forall i :: 0 <= i < |body| ==> body[i] == ls[i + 1];
      PartsAreClean(ls[1 + |body|..]);
    }
  }

  /** For a changelog and checked fragment files, the round trip can fail only through an indented
      heading: some existing body or some fragment whose first line is a heading once stripped. */
  lemma ExistingBreaksOnlyByFirstLine(ls: Lines, frame: Frame, existing: Bodies, c: Category)
    requires FrameOf(ls) == Some(frame) && SplitSection(frame.body) == Success(existing) && c in existing
    ensures Clean(existing[c]) <==> Opens(existing[c])
  {
    var u := FindUnreleased(ls).value;
    UpToIsClean(H2, ls[u + 1..]);
    var rest := frame.body[|UpTo(H3, frame.body)|..];
    PartsAreHeaded(rest);
    PartsAreClean(rest);
    CollectedAreCleanBelow(Parts(rest), map[]);
  }

  lemma FragmentBreaksOnlyByFirstLine(f: FragmentFile)
    requires !Problem(f)
    ensures Clean(StripBlock(f.lines)) <==> Opens(StripBlock(f.lines))
  {
    CheckedFragmentIsClean(f);
    OnlyTheFirstLine(f.lines);
  }

  predicate EachClean(blocks: seq<Lines>) {
    forall i :: 0 <= i < |blocks| ==> Clean(blocks[i])
  }

  predicate CleanUnder(fragments: seq<Fragment>, c: Category) {
    forall i :: 0 <= i < |fragments| && fragments[i].category == c ==> Clean(fragments[i].text)
  }

  lemma CleanUnderCons(fragments: seq<Fragment>, c: Category)
    requires fragments != []
    ensures CleanUnder(fragments, c) <==>
      (fragments[0].category == c ==> Clean(fragments[0].text)) && CleanUnder(fragments[1..], c)
  {
    var rest := fragments[1..];
    assert forall i :: 0 < i < |fragments| ==> fragments[i] == rest[i - 1];
    assert forall i :: 0 <= i < |rest| ==> rest[i] == fragments[i + 1];
  }

  /** Every fragment lands in its own category's blocks, and nothing else does. */
  lemma {:induction false} TextsAreTheFragments(fragments: seq<Fragment>, c: Category)
    ensures EachClean(TextsOf(fragments, c)) <==> CleanUnder(fragments, c)
  {
    if fragments != [] {
      var rest, own := fragments[1..], if fragments[0].category == c then [fragments[0].text] else [];
      TextsAreTheFragments(rest, c);
      CleanUnderCons(fragments, c);
      EachCleanConcat(own, TextsOf(rest, c));
      assert EachClean(own) <==> (fragments[0].category == c ==> Clean(fragments[0].text)) by {
        assert own != [] ==> own[0] == fragments[0].text;
      }
    }
  }

  lemma EachCleanConcat(a: seq<Lines>, b: seq<Lines>)
    ensures EachClean(a + b) <==> EachClean(a) && EachClean(b)
  {
    assert forall i :: 0 <= i < |a| ==> a[i] == (a + b)[i];
    assert forall i :: 0 <= i < |b| ==> b[i] == (a + b)[|a| + i];
  }

  lemma BlocksCleanIn(existing: Bodies, fragments: seq<Fragment>, c: Category)
    ensures EachClean(Blocks(existing, fragments, c)) <==>
      (c in existing ==> Clean(existing[c])) && CleanUnder(fragments, c)
  {
    var body := if c in existing then existing[c] else [];
    TextsAreTheFragments(fragments, c);
    EachCleanConcat([body], TextsOf(fragments, c));
    assert [body][0] == body;
  }

  lemma BlocksCleanIff(existing: Bodies, fragments: seq<Fragment>)
    ensures BlocksClean(existing, fragments) <==>
      && (forall c :: c in existing ==> Clean(existing[c]))
      && (forall i :: 0 <= i < |fragments| ==> Clean(fragments[i].text))
  {
    forall c: Category
      ensures EachClean(Blocks(existing, fragments, c)) <==>
        (c in existing ==> Clean(existing[c])) && CleanUnder(fragments, c)
    {
      BlocksCleanIn(existing, fragments, c);
    }
    assert BlocksClean(existing, fragments) <==> forall c :: EachClean(Blocks(existing, fragments, c));
    assert (forall i :: 0 <= i < |fragments| ==> Clean(fragments[i].text)) <==>
      forall c :: CleanUnder(fragments, c) by {
      forall i | 0 <= i < |fragments| && forall c :: CleanUnder(fragments, c)
        ensures Clean(fragments[i].text)
      {
        assert CleanUnder(fragments, fragments[i].category);
      }
    }
  }

  /** `fragments` are what the checked files load to. */
  ghost predicate Loaded(files: seq<FragmentFile>, fragments: seq<Fragment>) {
    && |fragments| == |files|
    && forall i :: 0 <= i < |files| ==>
         !Problem(files[i]) && files[i].category == Some(fragments[i].category)
           && fragments[i].text == StripBlock(files[i].lines)
  }

  /** From the files to the released text: splitting the new section recovers the merged map if and
      only if no existing body and no fragment opens, once stripped, with a heading line. */
  lemma RoundTripOfFiles(ls: Lines, files: seq<FragmentFile>, fragments: seq<Fragment>, version: string, date: string,
                         dateOk: bool, frame: Frame, existing: Bodies, out: Lines)
    requires Loaded(files, fragments)
    requires Released(ls, fragments, version, date, dateOk, frame, existing, out)
    ensures |frame.before| + 4 < |out|
    ensures SplitSection(NewSection(out, |frame.before| + 4)) == Success(MergedBodies(existing, fragments)) <==>
      && (forall c :: c in existing ==> Opens(existing[c]))
      && (forall i :: 0 <= i < |files| ==> Opens(StripBlock(files[i].lines)))
  {
    RoundTrip(ls, fragments, version, date, dateOk, frame, existing, out);
    BlocksCleanIff(existing, fragments);
    forall c | c in existing
      ensures Clean(existing[c]) <==> Opens(existing[c])
    {
      ExistingBreaksOnlyByFirstLine(ls, frame, existing, c);
    }
    forall i | 0 <= i < |files|
      ensures Clean(fragments[i].text) <==> Opens(StripBlock(files[i].lines))
    {
      FragmentBreaksOnlyByFirstLine(files[i]);
    }
  }

  /** One space in front of a stripped line is all that stripping takes away. */
  lemma IndentedLine(l: string)
    requires l != "" && !IsSpace(l[0]) && !IsSpace(l[|l| - 1])
    ensures StripBlock([" " + l]) == [l]
    ensures !LooksLikeHeading(" " + l) && !IsBlank(" " + l)
  {
    var indented := " " + l;
    assert indented[0] == ' ' && indented[1..] == l;
    assert LStrip(indented) == LStrip(l) == l;
    assert StripFront([indented]) == [l];
    assert RStrip(l) == l;
    assert StripBack([l]) == [l];
    assert indented[1] == l[0];
    assert forall n :: 1 <= n < |indented| ==> indented[..n][0] == ' ';
  }

  /** Such a fragment passes the check, and is not clean once stripped: a concrete one, and then
      every heading line there is. */
  lemma IndentedHeadingSlipsThrough()
    ensures Marked("### x")
    ensures forall l: string :: Marked(l) && !IsSpace(l[|l| - 1]) ==>
      var f := FragmentFile(Some(Added), [" " + l]);
      !Problem(f) && StripBlock(f.lines) == [l] && !Clean(StripBlock(f.lines))
  {
    forall l: string | Marked(l) && !IsSpace(l[|l| - 1])
      ensures var f := FragmentFile(Some(Added), [" " + l]);
        !Problem(f) && StripBlock(f.lines) == [l] && !Clean(StripBlock(f.lines))
    {
      assert l[0] == '#';
      IndentedLine(l);
      assert [" " + l][0] == " " + l && [l][0] == l;
    }
  }

  /** A changelog with nothing in it but the Unreleased heading. */
  lemma BareChangelog(version: string)
    requires VersionOk(version)
    ensures FrameOf([UNRELEASED]) == Some(Frame([], UNRELEASED, [], []))
    ensures SplitSection([]) == Success(map[])
    ensures !HasVersion([UNRELEASED], version)
  {
    var ls := [UNRELEASED];
    assert IsUnreleased(ls[0]) && FindUnreleased(ls) == Some(0);
    assert ls[1..] == [] && ls[..0] == [];
    var release := "## [" + version + "]";
    assert release[4] == version[0] && UNRELEASED[4] == 'U';
  }

  const BARE := Frame([], UNRELEASED, [], [])

  lemma BareRelease(f: Fragment, version: string, date: string) returns (out: Lines)
    requires f.text != [] && Stripped(f.text) && VersionOk(version)
    ensures Released([UNRELEASED], [f], version, date, true, BARE, map[], out)
  {
    BareChangelog(version);
    OneFragment(f);
    out := Assemble([UNRELEASED], [f], version, date, true).value;
  }

  lemma UncleanFragmentShows(f: Fragment)
    requires f.text != [] && !Clean(f.text)
    ensures !BlocksClean(map[], [f])
  {
    OneFragment(f);
    assert Blocks(map[], [f], f.category)[1] == f.text;
  }

  lemma IndentedHeadingLoads(l: string)
    requires Marked(l) && !IsSpace(l[|l| - 1])
    ensures Loaded([FragmentFile(Some(Added), [" " + l])], [Fragment(Added, [l])])
    ensures Stripped([l]) && !Clean([l])
  {
    IndentedHeadingSlipsThrough();
    assert l[0] == '#' && !IsSpace('#');
    assert [l][0] == l;
  }

  /** Splitting the section under the header at line `at` does not give back what went into it. */
  predicate RoundTripFails(out: Lines, at: nat, existing: Bodies, fragments: seq<Fragment>) {
    at < |out| && SplitSection(NewSection(out, at)) != Success(MergedBodies(existing, fragments))
  }

  lemma UncleanBreaks(ls: Lines, fragments: seq<Fragment>, version: string, date: string, dateOk: bool,
                      frame: Frame, existing: Bodies, out: Lines)
    requires Released(ls, fragments, version, date, dateOk, frame, existing, out)
    requires !BlocksClean(existing, fragments)
    ensures RoundTripFails(out, |frame.before| + 4, existing, fragments)
  {
    RoundTrip(ls, fragments, version, date, dateOk, frame, existing, out);
  }

  lemma BrokenRelease(f: Fragment, version: string, date: string) returns (out: Lines)
    requires f.text != [] && Stripped(f.text) && !Clean(f.text) && VersionOk(version)
    ensures Released([UNRELEASED], [f], version, date, true, BARE, map[], out)
    ensures RoundTripFails(out, 4, map[], [f])
  {
    out := BareRelease(f, version, date);
    UncleanFragmentShows(f);
    UncleanBreaks([UNRELEASED], [f], version, date, true, BARE, map[], out);
  }

  /** Every indented heading there is breaks a release: a file with just that line passes the check,
      its release is cut, and splitting the new section does not give back what went into it. */
  lemma IndentedHeadingBreaksRelease(l: string, version: string, date: string) returns (out: Lines)
    requires Marked(l) && !IsSpace(l[|l| - 1]) && VersionOk(version)
    ensures Loaded([FragmentFile(Some(Added), [" " + l])], [Fragment(Added, [l])])
    ensures Released([UNRELEASED], [Fragment(Added, [l])], version, date, true, BARE, map[], out)
    ensures RoundTripFails(out, 4, map[], [Fragment(Added, [l])])
  {
    IndentedHeadingLoads(l);
    out := BrokenRelease(Fragment(Added, [l]), version, date);
  }

  lemma OneFragment(f: Fragment)
    requires f.text != []
    ensures TextsOf([f], f.category) == [f.text]
    ensures f.category in MergedBodies(map[], [f])
  {
    assert [f][1..] == [] && TextsOf([], f.category) == [];
    var blocks := Blocks(map[], [f], f.category);
    assert blocks == [[], f.text] && blocks[..1] == [[]];
    assert blocks[..1][..0] == [] && Join(blocks[..1]) == [];
    assert f.category in {Added, Changed, Deprecated, Removed, Fixed, Security};
  }

  // ---- the emptied section, and assembling again ----

  lemma {:induction false} FindUnreleasedAt(before: Lines, line: string, rest: Lines)
    requires IsUnreleased(line)
    requires forall i :: 0 <= i < |before| ==> !IsUnreleased(before[i])
    ensures FindUnreleased(before + [line] + rest) == Some(|before|)
    decreases |before|
  {
    if before == [] {
      assert (before + [line] + rest)[0] == line;
    } else {
      assert (before + [line] + rest)[1..] == before[1..] + [line] + rest;
      FindUnreleasedAt(before[1..], line, rest);
    }
  }

  /** The first line of its kind is found. */
  lemma {:induction false} UnreleasedFoundIff(ls: Lines)
    ensures match FindUnreleased(ls)
      case None => forall i :: 0 <= i < |ls| ==> !IsUnreleased(ls[i])
      case Some(u) => IsUnreleased(ls[u]) && forall i :: 0 <= i < u ==> !IsUnreleased(ls[i])
  {
    if ls != [] && !IsUnreleased(ls[0]) {
      UnreleasedFoundIff(ls[1..]);
      assert forall i :: 0 < i < |ls| ==> ls[i] == ls[1..][i - 1];
    }
  }

  lemma BeforeUnreleased(ls: Lines)
    requires FindUnreleased(ls).Some?
    ensures forall i :: 0 <= i < FindUnreleased(ls).value ==> !IsUnreleased(ls[i])
  {
    UnreleasedFoundIff(ls);
  }

  lemma NoteIsComment()
    ensures IsComment(NOTE) && !Marked(NOTE)
  {
    CommentShape(" new entries: add a file under changelog.d/ ");
  }

  lemma CommentShape(text: string)
    ensures IsComment("<!--" + text + "-->") && !Marked("<!--" + text + "-->")
  {
    var line := "<!--" + text + "-->";
    assert line[0] == '<' && line[|line| - 1] == '>';
    assert Strip(line) == line;
    assert line[..4] == "<!--" && line[|line| - 3..] == "-->";
    assert "## "[0] == '#' && "### "[0] == '#';
  }

  lemma NoteSplitsToNothing(header: string, after: Lines)
    requires Is(H2, header)
    ensures UpTo(H2, ["", NOTE, ""] + ([header] + after)) == ["", NOTE, ""]
    ensures SplitSection(["", NOTE, ""]) == Success(map[])
  {
    NoteIsComment();
    var body := ["", NOTE, ""];
    assert Clean(body);
    UpToAppend(H2, body, [header] + after);
    assert UpTo(H2, [header] + after) == [];
    assert body + [] == body;
    UpToAppend(H3, body, []);
    assert UpTo(H3, body) == body;
    assert !Loose(body);
    assert body[3..] == [];
  }

  /** The frame of an assembled document. */
  lemma DocumentFrame(frame: Frame, version: string, date: string, section: Lines)
    requires forall i :: 0 <= i < |frame.before| ==> !IsUnreleased(frame.before[i])
    ensures var out := Document(frame, version, date, section);
      && FrameOf(out).Some?
      && FrameOf(out).value.before == frame.before
      && FrameOf(out).value.body == ["", NOTE, ""]
  {
    hide SplitSection, FindUnreleased, UpTo, Header;
    var out := Document(frame, version, date, section);
    var header, after := Header(version, date), [""] + section + frame.After();
    var rest := ["", NOTE, ""] + ([header] + after);
    assert out == frame.before + [UNRELEASED] + rest;
    FindUnreleasedAt(frame.before, UNRELEASED, rest);
    assert out[|frame.before| + 1..] == rest && out[..|frame.before|] == frame.before;
    HeaderIsH2(version, date);
    NoteSplitsToNothing(header, after);
  }

  /** In the output, the Unreleased section is the emptied one: what precedes it is what preceded
      it before, and it splits to nothing. */
  lemma UnreleasedIsEmptied(ls: Lines, fragments: seq<Fragment>, version: string, date: string, dateOk: bool,
                            frame: Frame, existing: Bodies, out: Lines)
    requires Released(ls, fragments, version, date, dateOk, frame, existing, out)
    ensures FrameOf(out).Some?
    ensures FrameOf(out).value.before == frame.before
    ensures SplitSection(FrameOf(out).value.body) == Success(map[])
    ensures HasVersion(out, version)
  {
    var section := Render(Items(MergedBodies(existing, fragments), CATEGORIES));
    BeforeUnreleased(ls);
    DocumentFrame(frame, version, date, section);
    HeaderIsH2(version, date);
    NoteSplitsToNothing(Header(version, date), []);
    DocumentParts(frame, version, date, section);
  }

  lemma {:induction false} NoFragmentsNoTexts(c: Category)
    ensures Join(Blocks(map[], [], c)) == []
  {
    var blocks := Blocks(map[], [], c);
    assert blocks == [[]];
    assert Join(blocks[..0]) == [];
  }

  /** A second assembly is refused: for the same version whatever the fragments, and for any other
      version when no fragments are left. */
  lemma SecondAssemblyRefused(ls: Lines, fragments: seq<Fragment>, version: string, date: string, dateOk: bool,
                              frame: Frame, existing: Bodies, out: Lines,
                              more: seq<Fragment>, again: string, later: string)
    requires Released(ls, fragments, version, date, dateOk, frame, existing, out)
    ensures Assemble(out, more, version, later, true) == Failure(VersionExists)
    ensures Assemble(out, [], again, later, true).Failure?
    ensures VersionOk(again) && !HasVersion(out, again) ==>
      Assemble(out, [], again, later, true) == Failure(NothingToRelease)
  {
    UnreleasedIsEmptied(ls, fragments, version, date, dateOk, frame, existing, out);
    forall c: Category
      ensures Join(Blocks(map[], [], c)) == []
    {
      NoFragmentsNoTexts(c);
    }
    assert MergedBodies(map[], []) == map[];
  }
}
