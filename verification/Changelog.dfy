/** Cutting a release section out of `## [Unreleased]` and the changelog fragments.

    A text is its list of lines (the text split at newlines); a block is a stripped text, with the
    empty text as the empty list. */
module Changelog {
  import opened Outcomes
  import opened Text

  type Lines = seq<string>

  datatype Category = Added | Changed | Deprecated | Removed | Fixed | Security

  /** Keep a Changelog order. */
  const CATEGORIES: seq<Category> := [Added, Changed, Deprecated, Removed, Fixed, Security]

  function Name(c: Category): string {
    match c
    case Added => "added"
    case Changed => "changed"
    case Deprecated => "deprecated"
    case Removed => "removed"
    case Fixed => "fixed"
    case Security => "security"
  }

  function Title(c: Category): string {
    match c
    case Added => "Added"
    case Changed => "Changed"
    case Deprecated => "Deprecated"
    case Removed => "Removed"
    case Fixed => "Fixed"
    case Security => "Security"
  }

  const UNRELEASED := "## [Unreleased]"
  const NOTE := "<!--" + " new entries: add a file under changelog.d/ " + "-->"

  function Heading(c: Category): string {
    "### " + Title(c)
  }

  function Header(version: string, date: string): string {
    "## [" + version + "] - " + date
  }

  datatype Error =
    | NoUnreleased | LooseText | UnknownCategory(line: string) | RepeatedCategory(category: Category)
    | BadVersion | BadDate | VersionExists | NothingToRelease

  datatype Result<+T> = Success(value: T) | Failure(error: Error)

  type Bodies = map<Category, Lines>

  // ---- lines that structure the document ----

  /** The two kinds of line the splitter looks for: `## ` and `### <something>`. */
  datatype Mark = H2 | H3

  predicate Is(m: Mark, line: string) {
    match m
    case H2 => "## " <= line
    case H3 => "### " <= line && |line| >= 5
  }

  predicate Marked(line: string) {
    Is(H2, line) || Is(H3, line)
  }

  predicate IsUnreleased(line: string) {
    UNRELEASED <= line && forall i :: |UNRELEASED| <= i < |line| ==> line[i] == ' ' || line[i] == '\t'
  }

  predicate IsComment(line: string) {
    var s := Strip(line);
    |s| >= 7 && "<!--" <= s && s[|s| - 3..] == "-->"
  }

  function Lower(s: string): string {
    seq(|s|, i requires 0 <= i < |s| => if 'A' <= s[i] <= 'Z' then s[i] - 'A' + 'a' else s[i])
  }

  /** The category a `### ` line names. */
  function CategoryOf(line: string): Option<Category>
    requires Is(H3, line)
  {
    var name := Lower(Strip(line[4..]));
    if name == Name(Added) then Some(Added)
    else if name == Name(Changed) then Some(Changed)
    else if name == Name(Deprecated) then Some(Deprecated)
    else if name == Name(Removed) then Some(Removed)
    else if name == Name(Fixed) then Some(Fixed)
    else if name == Name(Security) then Some(Security)
    else None
  }

  /** The lines before the first one marked `m`. */
  function UpTo(m: Mark, ls: Lines): (r: Lines)
    ensures r <= ls
    ensures |r| < |ls| ==> Is(m, ls[|r|])
  {
    if ls == [] || Is(m, ls[0]) then [] else [ls[0]] + UpTo(m, ls[1..])
  }

  // ---- stripping a block ----

  function StripFront(ls: Lines): Lines {
    if ls == [] then []
    else if LStrip(ls[0]) == "" then StripFront(ls[1..])
    else [LStrip(ls[0])] + ls[1..]
  }

  function StripBack(ls: Lines): Lines {
    if ls == [] then [] else
    var last := RStrip(ls[|ls| - 1]);
    if last == "" then StripBack(ls[..|ls| - 1]) else ls[..|ls| - 1] + [last]
  }

  /** `text.strip()`. */
  function StripBlock(ls: Lines): Lines {
    StripBack(StripFront(ls))
  }

  /** What `strip` leaves alone. */
  predicate Stripped(b: Lines) {
    b != [] ==>
      && b[0] != "" && !IsSpace(b[0][0])
      && var last := b[|b| - 1]; last != "" && !IsSpace(last[|last| - 1])
  }

  // ---- splitting a section ----

  datatype Part = Part(heading: string, body: Lines)

  function Parts(ls: Lines): seq<Part>
    requires ls != [] ==> Is(H3, ls[0])
    decreases |ls|
  {
    if ls == [] then [] else
    var body := UpTo(H3, ls[1..]);
    [Part(ls[0], body)] + Parts(ls[1 + |body|..])
  }

  predicate Headed(parts: seq<Part>) {
    forall i :: 0 <= i < |parts| ==> Is(H3, parts[i].heading)
  }

  lemma {:induction false} PartsAreHeaded(ls: Lines)
    requires ls != [] ==> Is(H3, ls[0])
    ensures Headed(Parts(ls))
    decreases |ls|
  {
    if ls != [] {
      PartsAreHeaded(ls[1 + |UpTo(H3, ls[1..])|..]);
    }
  }

  function Collect(parts: seq<Part>, acc: Bodies): Result<Bodies>
    requires Headed(parts)
  {
    if parts == [] then Success(acc) else
    var category := CategoryOf(parts[0].heading);
    if category.None? then Failure(UnknownCategory(parts[0].heading))
    else if category.value in acc then Failure(RepeatedCategory(category.value))
    else Collect(parts[1..], acc[category.value := StripBlock(parts[0].body)])
  }

  method CollectCategories(parts: seq<Part>) returns (r: Result<Bodies>)
    requires Headed(parts)
    ensures r == Collect(parts, map[])
  {
    var existing: Bodies := map[];
    for k := 0 to |parts|
      invariant Collect(parts, map[]) == Collect(parts[k..], existing)
    {
      var category := CategoryOf(parts[k].heading);
      if category.None? {
        return Failure(UnknownCategory(parts[k].heading));
      }
      if category.value in existing {
        return Failure(RepeatedCategory(category.value));
      }
      existing := existing[category.value := StripBlock(parts[k].body)];
    }
    r := Success(existing);
  }

  /** Text before the first category that is neither blank nor a comment belongs nowhere. */
  predicate Loose(preamble: Lines) {
    exists i :: 0 <= i < |preamble| && !IsBlank(preamble[i]) && !IsComment(preamble[i])
  }

  /** The category bodies of the lines under one `## ` heading. */
  function SplitSection(ls: Lines): Result<Bodies> {
    var preamble := UpTo(H3, ls);
    if Loose(preamble) then Failure(LooseText) else
    PartsAreHeaded(ls[|preamble|..]);
    Collect(Parts(ls[|preamble|..]), map[])
  }

  function FindUnreleased(ls: Lines): (u: Option<nat>)
    ensures u.Some? ==> u.value < |ls|
  {
    if ls == [] then None
    else if IsUnreleased(ls[0]) then Some(0)
    else match FindUnreleased(ls[1..])
      case None => None
      case Some(u) => Some(u + 1)
  }

  // ---- joining blocks ----

  /** The lines after the last empty one. */
  function LastParagraph(ls: Lines): Lines {
    if ls == [] || ls[|ls| - 1] == "" then [] else LastParagraph(ls[..|ls| - 1]) + [ls[|ls| - 1]]
  }

  predicate StartsWithBullet(ls: Lines) {
    var front := StripFront(ls);
    front != [] && ("- " <= front[0] || "* " <= front[0])
  }

  function Gap(before: Lines, block: Lines): Lines {
    if StartsWithBullet(LastParagraph(before)) && StartsWithBullet(block) then [] else [""]
  }

  function Extend(before: Lines, block: Lines): Lines {
    if block == [] then before else if before == [] then block else before + Gap(before, block) + block
  }

  function Join(blocks: seq<Lines>): Lines {
    if blocks == [] then [] else Extend(Join(blocks[..|blocks| - 1]), blocks[|blocks| - 1])
  }

  method JoinBlocks(blocks: seq<Lines>) returns (out: Lines)
    ensures out == Join(blocks)
  {
    out := [];
    for k := 0 to |blocks|
      invariant out == Join(blocks[..k])
    {
      assert blocks[..k + 1][..k] == blocks[..k];
      var block := blocks[k];
      if block != [] {
        if out == [] {
          out := block;
        } else {
          out := out + Gap(out, block) + block;
        }
      }
    }
    assert blocks[..|blocks|] == blocks;
  }

  // ---- fragments ----

  datatype Fragment = Fragment(category: Category, text: Lines)

  /** A file under `changelog.d/`; `category` is `None` when the name is not a valid fragment name. */
  datatype FragmentFile = FragmentFile(category: Option<Category>, lines: Lines)

  predicate LooksLikeHeading(line: string) {
    || (|line| >= 2 && line[..1] == "#" && IsSpace(line[1]))
    || (|line| >= 3 && line[..2] == "##" && IsSpace(line[2]))
    || (|line| >= 4 && line[..3] == "###" && IsSpace(line[3]))
  }

  predicate Problem(f: FragmentFile) {
    || f.category.None?
    || (forall i :: 0 <= i < |f.lines| ==> IsBlank(f.lines[i]))
    || (exists i :: 0 <= i < |f.lines| && LooksLikeHeading(f.lines[i]))
  }

  /** Every file is fine and becomes a fragment, in file order; or nothing is loaded. */
  method LoadFragments(files: seq<FragmentFile>) returns (r: Option<seq<Fragment>>)
    ensures r.Some? <==> forall i :: 0 <= i < |files| ==> !Problem(files[i])
    ensures r.Some? ==> |r.value| == |files| && forall i :: 0 <= i < |files| ==>
      files[i].category == Some(r.value[i].category) && r.value[i].text == StripBlock(files[i].lines)
  {
    var fragments: seq<Fragment> := [];
    for k := 0 to |files|
      invariant |fragments| == k
      invariant forall i :: 0 <= i < k ==> !Problem(files[i])
      invariant forall i :: 0 <= i < k ==>
        files[i].category == Some(fragments[i].category) && fragments[i].text == StripBlock(files[i].lines)
    {
      if Problem(files[k]) {
        return None;
      }
      fragments := fragments + [Fragment(files[k].category.value, StripBlock(files[k].lines))];
    }
    r := Some(fragments);
  }

  // ---- assembling ----

  predicate VersionOk(v: string) {
    && v != "" && '0' <= v[0] <= '9'
    && forall i :: 0 <= i < |v| ==>
         '0' <= v[i] <= '9' || 'A' <= v[i] <= 'Z' || 'a' <= v[i] <= 'z' || v[i] in ".+!_-"
  }

  predicate HasVersion(ls: Lines, version: string) {
    exists i :: 0 <= i < |ls| && "## [" + version + "]" <= ls[i]
  }

  function TextsOf(fragments: seq<Fragment>, c: Category): seq<Lines> {
    if fragments == [] then []
    else (if fragments[0].category == c then [fragments[0].text] else []) + TextsOf(fragments[1..], c)
  }

  /** What was under the category already, then its fragments in file order. */
  function Blocks(existing: Bodies, fragments: seq<Fragment>, c: Category): seq<Lines> {
    [if c in existing then existing[c] else []] + TextsOf(fragments, c)
  }

  /** The category-to-body map a release section is cut from. */
  function MergedBodies(existing: Bodies, fragments: seq<Fragment>): Bodies {
    map c: Category | c in {Added, Changed, Deprecated, Removed, Fixed, Security}
      && Join(Blocks(existing, fragments, c)) != []
      :: Join(Blocks(existing, fragments, c))
  }

  datatype Item = Item(category: Category, heading: string, body: Lines)

  /** The bodies present among `cats`, in order, under their headings. */
  function Items(bodies: Bodies, cats: seq<Category>): seq<Item> {
    if cats == [] then [] else
    var last := cats[|cats| - 1];
    Items(bodies, cats[..|cats| - 1]) + if last in bodies then [Item(last, Heading(last), bodies[last])] else []
  }

  function RenderItem(item: Item): Lines {
    [item.heading, ""] + item.body + [""]
  }

  function Flatten(blocks: seq<Lines>): Lines {
    if blocks == [] then [] else Flatten(blocks[..|blocks| - 1]) + blocks[|blocks| - 1]
  }

  function Rendered(items: seq<Item>): seq<Lines> {
    seq(|items|, i requires 0 <= i < |items| => RenderItem(items[i]))
  }

  function Render(items: seq<Item>): Lines {
    Flatten(Rendered(items))
  }

  /** The document around the Unreleased section: before it, its heading line, its body, and
      everything from the next release on. */
  datatype Frame = Frame(before: Lines, line: string, body: Lines, rest: Lines) {
    /** What follows the new section: a text that ends there still ends its last line. */
    function After(): Lines {
      if rest == [] then [""] else rest
    }
  }

  function FrameOf(ls: Lines): Option<Frame> {
    match FindUnreleased(ls)
    case None => None
    case Some(u) =>
      var body := UpTo(H2, ls[u + 1..]);
      Some(Frame(ls[..u], ls[u], body, ls[u + 1..][|body|..]))
  }

  function Document(frame: Frame, version: string, date: string, section: Lines): Lines {
    frame.before + [UNRELEASED, "", NOTE, "", Header(version, date), ""] + section + frame.After()
  }

  function Assemble(ls: Lines, fragments: seq<Fragment>, version: string, date: string, dateOk: bool): Result<Lines> {
    if !VersionOk(version) then Failure(BadVersion)
    else if !dateOk then Failure(BadDate)
    else if HasVersion(ls, version) then Failure(VersionExists)
    else
      var frame := FrameOf(ls);
      if frame.None? then Failure(NoUnreleased) else
      match SplitSection(frame.value.body)
      case Failure(e) => Failure(e)
      case Success(existing) =>
        var merged := MergedBodies(existing, fragments);
        if merged == map[] then Failure(NothingToRelease)
        else Success(Document(frame.value, version, date, Render(Items(merged, CATEGORIES))))
  }

  lemma FlattenSnoc(blocks: seq<Lines>, block: Lines)
    ensures Flatten(blocks + [block]) == Flatten(blocks) + block
  {
    assert (blocks + [block])[..|blocks|] == blocks;
  }

  /** `merged` holds the joined bodies of exactly the categories in `done`. */
  ghost predicate MergedSoFar(existing: Bodies, fragments: seq<Fragment>, done: seq<Category>, merged: Bodies) {
    && (forall c :: c in merged <==> c in done && Join(Blocks(existing, fragments, c)) != [])
    && (forall c :: c in merged ==> merged[c] == Join(Blocks(existing, fragments, c)))
  }

  lemma MergeOneMore(existing: Bodies, fragments: seq<Fragment>, done: seq<Category>, merged: Bodies, c: Category)
    requires MergedSoFar(existing, fragments, done, merged)
    ensures var body := Join(Blocks(existing, fragments, c));
      MergedSoFar(existing, fragments, done + [c], if body != [] then merged[c := body] else merged)
  {
  }

  lemma MergedAll(existing: Bodies, fragments: seq<Fragment>, merged: Bodies)
    requires MergedSoFar(existing, fragments, CATEGORIES, merged)
    ensures merged == MergedBodies(existing, fragments)
  {
    forall c: Category
      ensures c in CATEGORIES
    {
      EveryCategory(c);
    }
  }

  method MergeBodies(existing: Bodies, fragments: seq<Fragment>) returns (merged: Bodies)
    ensures merged == MergedBodies(existing, fragments)
  {
    merged := map[];
    for k := 0 to |CATEGORIES|
      invariant MergedSoFar(existing, fragments, CATEGORIES[..k], merged)
    {
      var category := CATEGORIES[k];
      MergeOneMore(existing, fragments, CATEGORIES[..k], merged, category);
      assert CATEGORIES[..k + 1] == CATEGORIES[..k] + [category];
      var body := JoinBlocks(Blocks(existing, fragments, category));
      if body != [] {
        merged := merged[category := body];
      }
    }
    assert CATEGORIES[..|CATEGORIES|] == CATEGORIES;
    MergedAll(existing, fragments, merged);
  }

  lemma EveryCategory(c: Category)
    ensures c in CATEGORIES
  {
    assert CATEGORIES[0] == Added && CATEGORIES[1] == Changed && CATEGORIES[2] == Deprecated;
    assert CATEGORIES[3] == Removed && CATEGORIES[4] == Fixed && CATEGORIES[5] == Security;
  }

  method RenderSection(merged: Bodies, cats: seq<Category>) returns (section: Lines)
    ensures section == Render(Items(merged, cats))
  {
    section := [];
    ghost var items: seq<Item> := [];
    for k := 0 to |cats|
      invariant items == Items(merged, cats[..k])
      invariant section == Flatten(Rendered(items))
    {
      assert cats[..k + 1][..k] == cats[..k];
      if cats[k] in merged {
        var item := Item(cats[k], Heading(cats[k]), merged[cats[k]]);
        section := section + RenderItem(item);
        FlattenSnoc(Rendered(items), RenderItem(item));
        assert Rendered(items + [item]) == Rendered(items) + [RenderItem(item)];
        items := items + [item];
      }
    }
    assert cats[..|cats|] == cats;
  }

  method AssembleChangelog(ls: Lines, fragments: seq<Fragment>, version: string, date: string, dateOk: bool)
    returns (r: Result<Lines>)
    ensures r == Assemble(ls, fragments, version, date, dateOk)
  {
    if !VersionOk(version) {
      return Failure(BadVersion);
    }
    if !dateOk {
      return Failure(BadDate);
    }
    if HasVersion(ls, version) {
      return Failure(VersionExists);
    }
    var frame := FrameOf(ls);
    if frame.None? {
      return Failure(NoUnreleased);
    }
    var split := SplitSection(frame.value.body);
    if split.Failure? {
      return Failure(split.error);
    }
    var merged := MergeBodies(split.value, fragments);
    if merged == map[] {
      return Failure(NothingToRelease);
    }
    var section := RenderSection(merged, CATEGORIES);
    r := Success(Document(frame.value, version, date, section));
  }
}
