/** Cutting a release loses nothing, invents nothing and changes no order.

    Every block that goes into a release, the bodies already in the document and the fragments, is
    found in the released document as a contiguous run of lines, at a place this module computes. */
module ChangelogConservation {
  import opened Changelog
  import opened ChangelogLaws

  /** `part` is the run of lines of `whole` that starts at `p`. */
  predicate Sits(whole: Lines, p: int, part: Lines) {
    0 <= p && p + |part| <= |whole| && forall j :: 0 <= j < |part| ==> whole[p + j] == part[j]
  }

  // ---- one joined body ----

  /** Where block `k` starts in the joined text. */
  function BlockStart(blocks: seq<Lines>, k: nat): int
    requires k < |blocks|
  {
    |Before(blocks, k + 1)| - |blocks[k]|
  }

  lemma ExtendEnds(before: Lines, block: Lines) returns (head: Lines)
    requires block != []
    ensures before <= head && Extend(before, block) == head + block
  {
    head := if before == [] then [] else before + Gap(before, block);
  }

  lemma PrefixSits(head: Lines, part: Lines, whole: Lines)
    requires head + part <= whole
    ensures Sits(whole, |head|, part)
  {
    forall j | 0 <= j < |part|
      ensures whole[|head| + j] == part[j]
    {
      assert (head + part)[|head| + j] == part[j];
    }
  }

  lemma BlockIsThere(blocks: seq<Lines>, k: nat)
    requires k < |blocks| && blocks[k] != []
    ensures var p := BlockStart(blocks, k);
      && |Before(blocks, k)| <= p && p + |blocks[k]| == |Before(blocks, k + 1)|
      && Sits(Join(blocks), p, blocks[k])
  {
    BeforeNext(blocks, k);
    BeforeGrows(blocks, k + 1);
    var head := ExtendEnds(Before(blocks, k), blocks[k]);
    PrefixSits(head, blocks[k], Join(blocks));
  }

  lemma {:induction false} BeforeIsMonotone(blocks: seq<Lines>, j: nat, k: nat)
    requires j <= k <= |blocks|
    ensures |Before(blocks, j)| <= |Before(blocks, k)|
    decreases k - j
  {
    if j < k {
      BeforeNext(blocks, j);
      BeforeIsMonotone(blocks, j + 1, k);
    }
  }

  /** Line `y` of the joined text belongs to block `k`. */
  predicate InBlock(blocks: seq<Lines>, k: nat, y: int) {
    k < |blocks| && BlockStart(blocks, k) <= y < BlockStart(blocks, k) + |blocks[k]|
  }

  lemma ExtendLine(before: Lines, block: Lines, y: nat)
    requires |before| <= y < |Extend(before, block)|
    ensures Extend(before, block)[y] == "" || |Extend(before, block)| - |block| <= y
  {
  }

  /** A line added by block `k` is the empty line before it or one of its own. */
  lemma AddedLine(blocks: seq<Lines>, k: nat, y: nat)
    requires k < |blocks| && |Before(blocks, k)| <= y < |Before(blocks, k + 1)|
    ensures Before(blocks, k + 1)[y] == "" || InBlock(blocks, k, y)
  {
    BeforeNext(blocks, k);
    ExtendLine(Before(blocks, k), blocks[k], y);
  }

  lemma {:induction false} FindBlock(blocks: seq<Lines>, n: nat, y: nat) returns (k: nat)
    requires 0 < n <= |blocks| && y < |Before(blocks, n)|
    ensures k < n && |Before(blocks, k)| <= y < |Before(blocks, k + 1)|
    decreases n
  {
    if n > 1 && y < |Before(blocks, n - 1)| {
      k := FindBlock(blocks, n - 1, y);
    } else {
      k := n - 1;
    }
  }

  /** A line of the joined text that belongs to no block is empty. */
  lemma JoinIsBlocks(blocks: seq<Lines>, y: nat)
    requires y < |Join(blocks)|
    ensures Join(blocks)[y] == "" || exists k :: InBlock(blocks, k, y)
  {
    assert blocks[..|blocks|] == blocks;
    var k := FindBlock(blocks, |blocks|, y);
    AddedLine(blocks, k, y);
    BeforeGrows(blocks, k + 1);
  }

  // ---- the rendered section ----

  /** The section's lines for the first `i` categories. */
  function SectionUpto(bodies: Bodies, cats: seq<Category>, i: nat): Lines
    requires i <= |cats|
  {
    Render(Items(bodies, cats[..i]))
  }

  lemma SectionNext(bodies: Bodies, cats: seq<Category>, i: nat)
    requires i < |cats|
    ensures SectionUpto(bodies, cats, i + 1) == SectionUpto(bodies, cats, i) +
      if cats[i] in bodies then [Heading(cats[i]), ""] + bodies[cats[i]] + [""] else []
  {
    var before := Items(bodies, cats[..i]);
    assert cats[..i + 1][..i] == cats[..i];
    if cats[i] in bodies {
      var item := Item(cats[i], Heading(cats[i]), bodies[cats[i]]);
      FlattenSnoc(Rendered(before), RenderItem(item));
      assert Rendered(before + [item]) == Rendered(before) + [RenderItem(item)];
    } else {
      assert Items(bodies, cats[..i + 1]) == before + [] == before;
    }
  }

  lemma {:induction false} SectionGrows(bodies: Bodies, cats: seq<Category>, i: nat, j: nat)
    requires i <= j <= |cats|
    ensures SectionUpto(bodies, cats, i) <= SectionUpto(bodies, cats, j)
    decreases j - i
  {
    if i < j {
      SectionNext(bodies, cats, i);
      SectionGrows(bodies, cats, i + 1, j);
    }
  }

  /** Where category `i`'s body starts in the section. */
  function BodyStart(bodies: Bodies, cats: seq<Category>, i: nat): nat
    requires i < |cats|
  {
    |SectionUpto(bodies, cats, i)| + 2
  }

  lemma BodyIsThere(bodies: Bodies, cats: seq<Category>, i: nat)
    requires i < |cats| && cats[i] in bodies
    ensures var p, body, section := BodyStart(bodies, cats, i), bodies[cats[i]], SectionUpto(bodies, cats, |cats|);
      && p + |body| < |SectionUpto(bodies, cats, i + 1)|
      && Sits(section, p, body)
  {
    var before, body := SectionUpto(bodies, cats, i), bodies[cats[i]];
    var head, next := before + [Heading(cats[i]), ""], SectionUpto(bodies, cats, i + 1);
    hide SectionUpto;
    SectionNext(bodies, cats, i);
    assert next == head + body + [""];
    SectionGrows(bodies, cats, i + 1, |cats|);
    assert head + body <= next;
    PrefixSits(head, body, SectionUpto(bodies, cats, |cats|));
  }

  // ---- the released document ----

  /** What goes into a release: the categories in their order, what the document already says under
      them, and the fragments. */
  datatype Release = Release(cats: seq<Category>, existing: Bodies, fragments: seq<Fragment>) {
    function Merged(): Bodies {
      MergedBodies(existing, fragments)
    }
  }

  /** A block of a release: the category it is listed under, and its number there. Number 0 is what
      the document already said; the fragments follow in file order. */
  datatype Slot = Slot(category: nat, number: nat) {
    predicate Precedes(s: Slot) {
      category < s.category || (category == s.category && number < s.number)
    }
  }

  function BlocksAt(r: Release, i: nat): seq<Lines>
    requires i < |r.cats|
  {
    Blocks(r.existing, r.fragments, r.cats[i])
  }

  /** A slot that holds a text. */
  predicate Holds(r: Release, s: Slot) {
    && s.category < |r.cats|
    && var blocks := BlocksAt(r, s.category);
    s.number < |blocks| && blocks[s.number] != []
  }

  function TextAt(r: Release, s: Slot): Lines
    requires Holds(r, s)
  {
    BlocksAt(r, s.category)[s.number]
  }

  /** Where a slot's text starts in the new section. */
  function Offset(r: Release, s: Slot): int
    requires Holds(r, s)
  {
    BodyStart(r.Merged(), r.cats, s.category)
      + BlockStart(BlocksAt(r, s.category), s.number)
  }

  /** A category with a non-empty block has a body, and the body is those blocks joined. */
  lemma HeldIsMerged(r: Release, s: Slot)
    requires Holds(r, s)
    ensures var c, merged := r.cats[s.category], r.Merged();
      c in merged && merged[c] == Join(BlocksAt(r, s.category))
  {
    BlockIsThere(BlocksAt(r, s.category), s.number);
    InMerged(r.existing, r.fragments, r.cats[s.category]);
  }

  lemma InMerged(existing: Bodies, fragments: seq<Fragment>, c: Category)
    requires Join(Blocks(existing, fragments, c)) != []
    ensures c in MergedBodies(existing, fragments)
    ensures MergedBodies(existing, fragments)[c] == Join(Blocks(existing, fragments, c))
  {
    match c
    case Added =>
    case Changed =>
    case Deprecated =>
    case Removed =>
    case Fixed =>
    case Security =>
  }

  function NewLines(r: Release): Lines {
    SectionUpto(r.Merged(), r.cats, |r.cats|)
  }

  lemma Nested(whole: Lines, p: int, part: Lines, q: int, text: Lines)
    requires Sits(whole, p, part) && Sits(part, q, text)
    ensures Sits(whole, p + q, text)
  {
    forall j | 0 <= j < |text|
      ensures whole[p + q + j] == text[j]
    {
      assert part[q + j] == text[j];
    }
  }

  lemma BlockInBody(section: Lines, start: int, blocks: seq<Lines>, k: nat)
    requires Sits(section, start, Join(blocks)) && k < |blocks| && blocks[k] != []
    ensures Sits(section, start + BlockStart(blocks, k), blocks[k])
    ensures 0 <= BlockStart(blocks, k) && BlockStart(blocks, k) + |blocks[k]| <= |Join(blocks)|
  {
    BlockIsThere(blocks, k);
    Nested(section, start, Join(blocks), BlockStart(blocks, k), blocks[k]);
  }

  /** `text` is in the section at `p`, among the lines of category `i`. */
  predicate Within(bodies: Bodies, cats: seq<Category>, i: nat, p: int, text: Lines)
    requires i < |cats|
  {
    && |SectionUpto(bodies, cats, i)| <= p
    && p + |text| <= |SectionUpto(bodies, cats, i + 1)|
    && Sits(SectionUpto(bodies, cats, |cats|), p, text)
  }

  /** Block `k` of category `i`'s body is among that category's lines. */
  lemma BlockInSection(bodies: Bodies, cats: seq<Category>, i: nat, blocks: seq<Lines>, k: nat)
    requires i < |cats| && cats[i] in bodies && bodies[cats[i]] == Join(blocks)
    requires k < |blocks| && blocks[k] != []
    ensures Within(bodies, cats, i, BodyStart(bodies, cats, i) + BlockStart(blocks, k), blocks[k])
  {
    hide Join;
    hide SectionUpto;
    BodyIsThere(bodies, cats, i);
    BlockInBody(SectionUpto(bodies, cats, |cats|), BodyStart(bodies, cats, i), blocks, k);
  }

  /** A slot's text is in the section, whole, between the lines of the categories around it. */
  lemma TextIsThere(r: Release, s: Slot)
    requires Holds(r, s)
    ensures Within(r.Merged(), r.cats, s.category, Offset(r, s), TextAt(r, s))
  {
    hide Join;
    hide SectionUpto;
    HeldIsMerged(r, s);
    BlockInSection(r.Merged(), r.cats, s.category, BlocksAt(r, s.category), s.number);
  }

  /** Slots come in order: category by category, and within one the document's own text first and
      then the fragments in file order. No two overlap. */
  lemma SlotsAreInOrder(r: Release, s: Slot, t: Slot)
    requires Holds(r, s) && Holds(r, t) && s.Precedes(t)
    ensures Offset(r, s) + |TextAt(r, s)| <= Offset(r, t)
  {
    TextIsThere(r, s);
    TextIsThere(r, t);
    if s.category == t.category {
      var blocks := BlocksAt(r, s.category);
      BlockIsThere(blocks, s.number);
      BlockIsThere(blocks, t.number);
      BeforeIsMonotone(blocks, s.number + 1, t.number);
    } else {
      SectionGrows(r.Merged(), r.cats, s.category + 1, t.category);
    }
  }

  /** Line `x` of the section belongs to a slot's text. */
  predicate InSlot(r: Release, s: Slot, x: int) {
    && Holds(r, s)
    && Offset(r, s) <= x < Offset(r, s) + |TextAt(r, s)|
  }

  ghost predicate Explained(r: Release, x: int, line: string) {
    || line == ""
    || (exists c :: c in r.Merged() && line == Heading(c))
    || (exists s :: InSlot(r, s, x))
  }

  lemma BodyLineIsExplained(r: Release, i: nat, y: nat)
    requires i < |r.cats| && r.cats[i] in r.Merged()
    requires y < |r.Merged()[r.cats[i]]|
    ensures var merged := r.Merged();
      Explained(r, BodyStart(merged, r.cats, i) + y, merged[r.cats[i]][y])
  {
    var blocks := BlocksAt(r, i);
    JoinIsBlocks(blocks, y);
    if k :| InBlock(blocks, k, y) {
      var s := Slot(i, k);
      assert Holds(r, s);
      assert InSlot(r, s, BodyStart(r.Merged(), r.cats, i) + y);
    }
  }

  /** What line `x` of the section up to category `i` can be, if not in an earlier category's lines. */
  lemma LineOfCategory(bodies: Bodies, cats: seq<Category>, i: nat, x: nat)
    requires i < |cats| && |SectionUpto(bodies, cats, i)| <= x < |SectionUpto(bodies, cats, i + 1)|
    ensures cats[i] in bodies
    ensures var line, y := SectionUpto(bodies, cats, i + 1)[x], x - BodyStart(bodies, cats, i);
      line == "" || line == Heading(cats[i]) || (0 <= y < |bodies[cats[i]]| && line == bodies[cats[i]][y])
  {
    SectionNext(bodies, cats, i);
  }

  /** The category whose lines hold line `x`. */
  lemma {:induction false} FindCategory(bodies: Bodies, cats: seq<Category>, n: nat, x: nat) returns (i: nat)
    requires 0 < n <= |cats| && x < |SectionUpto(bodies, cats, n)|
    ensures i < n && |SectionUpto(bodies, cats, i)| <= x < |SectionUpto(bodies, cats, i + 1)|
    decreases n
  {
    if n > 1 && x < |SectionUpto(bodies, cats, n - 1)| {
      i := FindCategory(bodies, cats, n - 1, x);
    } else {
      i := n - 1;
    }
  }

  lemma KindOfLine(bodies: Bodies, cats: seq<Category>, x: nat) returns (i: nat)
    requires cats != [] && x < |SectionUpto(bodies, cats, |cats|)|
    ensures i < |cats| && cats[i] in bodies
    ensures var line, y := SectionUpto(bodies, cats, |cats|)[x], x - BodyStart(bodies, cats, i);
      line == "" || line == Heading(cats[i]) || (0 <= y < |bodies[cats[i]]| && line == bodies[cats[i]][y])
  {
    i := FindCategory(bodies, cats, |cats|, x);
    LineOfCategory(bodies, cats, i, x);
    SectionGrows(bodies, cats, i + 1, |cats|);
  }

  /** A line of the section that belongs to no slot is a category's heading or empty. */
  lemma NothingIsInvented(r: Release, x: nat)
    requires r.cats != [] && x < |NewLines(r)|
    ensures Explained(r, x, NewLines(r)[x])
  {
    var merged := r.Merged();
    var i := KindOfLine(merged, r.cats, x);
    var y := x - BodyStart(merged, r.cats, i);
    if 0 <= y < |merged[r.cats[i]]| {
      BodyLineIsExplained(r, i, y);
    }
  }

  /** Where a slot's text starts in the released document. */
  function Place(frame: Frame, r: Release, s: Slot): int
    requires Holds(r, s)
  {
    |frame.before| + 6 + Offset(r, s)
  }

  /** Every slot's text is in the document, between what precedes the new section and what follows. */
  ghost predicate AllPlaced(frame: Frame, r: Release, out: Lines) {
    forall s :: Holds(r, s) ==>
      && Sits(out, Place(frame, r, s), TextAt(r, s))
      && |frame.before| + 6 <= Place(frame, r, s)
      && Place(frame, r, s) + |TextAt(r, s)| <= |out| - |frame.After()|
  }

  /** The slots' texts come in order and do not overlap. */
  ghost predicate AllOrdered(frame: Frame, r: Release) {
    forall s, t :: Holds(r, s) && Holds(r, t) && s.Precedes(t) ==>
      Place(frame, r, s) + |TextAt(r, s)| <= Place(frame, r, t)
  }

  /** Every line of the new section belongs to a slot, is a category's heading or is empty. */
  ghost predicate AllExplained(frame: Frame, r: Release, out: Lines) {
    forall q :: |frame.before| + 6 <= q < |out| - |frame.After()| ==>
      Explained(r, q - |frame.before| - 6, out[q])
  }

  /** The released document is the old one up to the Unreleased heading, six fixed lines, the new
      section, and the old one from the next release on. */
  ghost predicate Composed(frame: Frame, fixed: Lines, section: Lines, out: Lines) {
    |fixed| == 6 && out == frame.before + fixed + section + frame.After()
  }

  /** The release is the one that `Assemble` cut from `ls` to give `out`. */
  ghost predicate CutFrom(ls: Lines, r: Release, version: string, date: string, dateOk: bool, frame: Frame,
                          out: Lines) {
    r.cats == CATEGORIES && Released(ls, r.fragments, version, date, dateOk, frame, r.existing, out)
  }

  lemma ReleasedShape(ls: Lines, r: Release, version: string, date: string, dateOk: bool, frame: Frame, out: Lines)
    requires CutFrom(ls, r, version, date, dateOk, frame, out)
    ensures Composed(frame, [UNRELEASED, "", NOTE, "", Header(version, date), ""], NewLines(r), out)
  {
    assert r.cats[..|r.cats|] == r.cats;
  }

  lemma EdgesAreKept(frame: Frame, fixed: Lines, section: Lines, out: Lines)
    requires Composed(frame, fixed, section, out)
    ensures Sits(out, 0, frame.before)
    ensures Sits(out, |frame.before|, fixed)
    ensures Sits(out, |frame.before| + 6, section)
    ensures Sits(out, |out| - |frame.After()|, frame.After())
    ensures |out| == |frame.before| + 6 + |section| + |frame.After()|
  {
  }

  lemma TextsArePlaced(frame: Frame, fixed: Lines, r: Release, out: Lines)
    requires Composed(frame, fixed, NewLines(r), out)
    ensures AllPlaced(frame, r, out)
  {
    var section := NewLines(r);
    EdgesAreKept(frame, fixed, section, out);
    forall s | Holds(r, s)
      ensures Sits(out, Place(frame, r, s), TextAt(r, s))
      ensures |frame.before| + 6 <= Place(frame, r, s)
      ensures Place(frame, r, s) + |TextAt(r, s)| <= |out| - |frame.After()|
    {
      TextIsThere(r, s);
      Nested(out, |frame.before| + 6, section, Offset(r, s), TextAt(r, s));
    }
  }

  lemma TextsAreOrdered(frame: Frame, r: Release)
    ensures AllOrdered(frame, r)
  {
    forall s, t | Holds(r, s) && Holds(r, t) && s.Precedes(t)
      ensures Place(frame, r, s) + |TextAt(r, s)| <=
        Place(frame, r, t)
    {
      SlotsAreInOrder(r, s, t);
    }
  }

  lemma LineOfPart(whole: Lines, p: int, part: Lines, q: int)
    requires Sits(whole, p, part) && p <= q < p + |part|
    ensures whole[q] == part[q - p]
  {
    assert whole[p + (q - p)] == part[q - p];
  }

  lemma LineIsExplained(r: Release, out: Lines, p: int, q: int)
    requires r.cats != [] && Sits(out, p, NewLines(r)) && p <= q < p + |NewLines(r)|
    ensures Explained(r, q - p, out[q])
  {
    hide NewLines;
    hide Explained;
    LineOfPart(out, p, NewLines(r), q);
    NothingIsInvented(r, q - p);
  }

  lemma LinesAreExplained(frame: Frame, fixed: Lines, r: Release, out: Lines)
    requires r.cats != [] && Composed(frame, fixed, NewLines(r), out)
    ensures AllExplained(frame, r, out)
  {
    EdgesAreKept(frame, fixed, NewLines(r), out);
    forall q | |frame.before| + 6 <= q < |out| - |frame.After()|
      ensures Explained(r, q - |frame.before| - 6, out[q])
    {
      LineIsExplained(r, out, |frame.before| + 6, q);
    }
  }

  /** Conservation. What precedes the Unreleased heading and what follows its section are unchanged; a
      bare Unreleased section and the release's heading come between;
      every block, the document's own bodies and the fragments, appears whole and as one run of
      lines between them, in category order and within a category in file order, no two
      overlapping; and every line there that belongs to no block is empty or a category's heading. */
  lemma ReleaseConserves(ls: Lines, r: Release, version: string, date: string, dateOk: bool, frame: Frame, out: Lines)
    requires CutFrom(ls, r, version, date, dateOk, frame, out)
    ensures ls == frame.before + [frame.line] + frame.body + frame.rest
    ensures Sits(out, 0, frame.before)
    ensures Sits(out, |frame.before|, ["## [Unreleased]", "", NOTE, "", "## [" + version + "] - " + date, ""])
    ensures Sits(out, |out| - |frame.After()|, frame.After()) && (frame.rest != [] ==> frame.After() == frame.rest)
    ensures AllPlaced(frame, r, out)
    ensures AllOrdered(frame, r)
    ensures AllExplained(frame, r, out)
  {
    var fixed := [UNRELEASED, "", NOTE, "", Header(version, date), ""];
    NothingElseMoves(ls, frame);
    ReleasedShape(ls, r, version, date, dateOk, frame, out);
    EdgesAreKept(frame, fixed, NewLines(r), out);
    TextsArePlaced(frame, fixed, r, out);
    TextsAreOrdered(frame, r);
    LinesAreExplained(frame, fixed, r, out);
  }

  // ---- fragments and existing bodies have their own slots ----

  function IndexOf(c: Category): (i: nat)
    ensures i < |CATEGORIES| && CATEGORIES[i] == c
  {
    match c
    case Added => 0
    case Changed => 1
    case Deprecated => 2
    case Removed => 3
    case Fixed => 4
    case Security => 5
  }

  /** A fragment's slot: after the document's own text and the earlier fragments of its category. */
  function SlotOf(fragments: seq<Fragment>, a: nat): Slot
    requires a < |fragments|
  {
    var c := fragments[a].category;
    Slot(IndexOf(c), 1 + |TextsOf(fragments[..a], c)|)
  }

  lemma {:induction false} TextsInFileOrder(fragments: seq<Fragment>, a: nat, c: Category)
    requires a < |fragments| && fragments[a].category == c
    ensures var n := |TextsOf(fragments[..a], c)|;
      n < |TextsOf(fragments, c)| && TextsOf(fragments, c)[n] == fragments[a].text
  {
    if a > 0 {
      assert fragments[..a][1..] == fragments[1..][..a - 1];
      TextsInFileOrder(fragments[1..], a - 1, c);
    } else {
      assert fragments[..a] == [];
    }
  }

  lemma FragmentHasItsSlot(r: Release, a: nat)
    requires r.cats == CATEGORIES && a < |r.fragments| && r.fragments[a].text != []
    ensures Holds(r, SlotOf(r.fragments, a))
    ensures TextAt(r, SlotOf(r.fragments, a)) == r.fragments[a].text
  {
    TextsInFileOrder(r.fragments, a, r.fragments[a].category);
  }

  lemma FragmentSlotsInOrder(fragments: seq<Fragment>, a: nat, b: nat)
    requires a < b < |fragments| && fragments[a].category == fragments[b].category
    ensures SlotOf(fragments, a).Precedes(SlotOf(fragments, b))
  {
    assert fragments[..b][..a] == fragments[..a];
    TextsInFileOrder(fragments[..b], a, fragments[a].category);
  }

  /** Fragment `a` comes before fragment `b`: its category does, or its file in the same category. */
  predicate Earlier(fragments: seq<Fragment>, a: nat, b: nat)
    requires a < |fragments| && b < |fragments|
  {
    || IndexOf(fragments[a].category) < IndexOf(fragments[b].category)
    || (fragments[a].category == fragments[b].category && a < b)
  }

  /** In terms of the files: every fragment with a text is in the released document, whole, after
      what its category already said, and of two fragments the one of the earlier category, or of
      the same category and the earlier file, comes first. */
  lemma FragmentsAreKept(ls: Lines, r: Release, version: string, date: string, dateOk: bool, frame: Frame, out: Lines,
                         a: nat)
    requires CutFrom(ls, r, version, date, dateOk, frame, out)
    requires a < |r.fragments| && r.fragments[a].text != []
    ensures Holds(r, SlotOf(r.fragments, a))
    ensures var p, c := Place(frame, r, SlotOf(r.fragments, a)), r.fragments[a].category;
      && Sits(out, p, r.fragments[a].text)
      && (c in r.existing && r.existing[c] != [] ==>
            var own := Slot(IndexOf(c), 0);
            && Holds(r, own)
            && Sits(out, Place(frame, r, own), r.existing[c])
            && Place(frame, r, own) + |r.existing[c]| <= p)
      && forall b :: 0 <= b < |r.fragments| && r.fragments[b].text != [] && Earlier(r.fragments, a, b) ==>
           && Holds(r, SlotOf(r.fragments, b))
           && p + |r.fragments[a].text| <= Place(frame, r, SlotOf(r.fragments, b))
  {
    ReleaseConserves(ls, r, version, date, dateOk, frame, out);
    FragmentHasItsSlot(r, a);
    var s := SlotOf(r.fragments, a);
    assert Sits(out, Place(frame, r, s), r.fragments[a].text);
    var own := Slot(s.category, 0);
    assert Holds(r, own) ==> own.Precedes(s);
    forall b | 0 <= b < |r.fragments| && r.fragments[b].text != [] && Earlier(r.fragments, a, b)
      ensures Holds(r, SlotOf(r.fragments, b)) && s.Precedes(SlotOf(r.fragments, b))
    {
      FragmentHasItsSlot(r, b);
      if r.fragments[a].category == r.fragments[b].category {
        FragmentSlotsInOrder(r.fragments, a, b);
      }
    }
  }
}
