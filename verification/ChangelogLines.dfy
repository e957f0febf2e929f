/** Every line that goes into a release comes out of it: the lines of the fragment files and those
    already under the Unreleased heading. */
module ChangelogLines {
  import opened Outcomes
  import opened Text
  import opened Changelog
  import opened ChangelogLaws
  import opened ChangelogConservation
  import opened StripLaws

  /** Line `q` of `out` is `line`, less at most the blanks at its ends. */
  ghost predicate Stands(out: Lines, q: int, line: string) {
    0 <= q < |out| && Keeps(line, out[q])
  }

  /** Where a stripped block sits, every line of the block it came from that is not blank stands, one
      after the other; between the first and the last of them, just as it was. */
  ghost predicate AllStand(out: Lines, p: int, ls: Lines, b: Lines, a: int) {
    && (forall i :: 0 <= i < |ls| && !AllSpace(ls[i]) ==> a <= i < a + |b| && Stands(out, p + i - a, ls[i]))
    && (forall i :: a < i < a + |b| - 1 && 0 <= i < |ls| ==> 0 <= p + i - a < |out| && out[p + i - a] == ls[i])
  }

  lemma BlockLinesStand(out: Lines, p: int, ls: Lines, b: Lines, a: int)
    requires Sits(out, p, b) && StrippedAt(ls, b, a)
    ensures AllStand(out, p, ls, b, a)
  {
    forall i | 0 <= i < |ls| && !AllSpace(ls[i])
      ensures a <= i < a + |b| && Stands(out, p + i - a, ls[i])
    {
      LinesAreKept(ls, b, a, i);
      assert out[p + (i - a)] == b[i - a];
    }
    forall i | a < i < a + |b| - 1
      ensures 0 <= p + i - a < |out| && out[p + i - a] == ls[i]
    {
      assert out[p + (i - a)] == b[i - a];
    }
  }

  // ---- the fragment files ----

  lemma FileIsNotBlank(f: FragmentFile)
    requires !Problem(f)
    ensures StripBlock(f.lines) != []
  {
    StripBlockSpec(f.lines);
    var i :| 0 <= i < |f.lines| && !IsBlank(f.lines[i]);
    BlankIff(f.lines[i]);
  }

  /** Every line of every fragment file that is not blank stands in the released document, in the
      file's slot and in the file's order. Only the first and the last of these lose anything, and no
      more than blanks. */
  lemma FileLinesAreKept(ls: Lines, r: Release, files: seq<FragmentFile>, version: string, date: string, dateOk: bool,
                         frame: Frame, out: Lines, f: nat)
    requires CutFrom(ls, r, version, date, dateOk, frame, out) && Loaded(files, r.fragments) && f < |files|
    ensures Holds(r, SlotOf(r.fragments, f))
    ensures AllStand(out, Place(frame, r, SlotOf(r.fragments, f)), files[f].lines, r.fragments[f].text,
                     Skipped(files[f].lines))
  {
    FileIsNotBlank(files[f]);
    FragmentsAreKept(ls, r, version, date, dateOk, frame, out, f);
    StripBlockSpec(files[f].lines);
    BlockLinesStand(out, Place(frame, r, SlotOf(r.fragments, f)), files[f].lines, r.fragments[f].text,
                    Skipped(files[f].lines));
  }

  // ---- what is already under the Unreleased heading ----

  lemma SplitHead(ls: Lines, body: Lines)
    requires ls != [] && body <= ls[1..]
    ensures ls[1..][|body|..] == ls[1 + |body|..]
    ensures ls == [ls[0]] + body + ls[1 + |body|..]
  {
    assert ls[1..] == body + ls[1..][|body|..];
    assert ls == [ls[0]] + ls[1..];
  }

  /** A section is its first heading, the body up to the next one, and the rest. */
  lemma PartsCons(ls: Lines, body: Lines, rest: Lines)
    requires ls != [] && Is(H3, ls[0]) && body == UpTo(H3, ls[1..]) && rest == ls[1 + |body|..]
    ensures rest != [] ==> Is(H3, rest[0])
    ensures Parts(ls) == [Part(ls[0], body)] + Parts(rest)
    ensures ls == [ls[0]] + body + rest
  {
    hide UpTo;
    SplitHead(ls, body);
    assert rest != [] ==> rest[0] == ls[1..][|body|];
  }

  /** The part's heading, as line -1, or a line of its body. */
  predicate LineOf(part: Part, y: int, line: string) {
    -1 <= y < |part.body| && line == if y == -1 then part.heading else part.body[y]
  }

  /** Line `x` of a section is the heading of some part or a line of some part's body. */
  lemma {:induction false} FindPart(ls: Lines, x: nat) returns (k: nat, y: int)
    requires (ls != [] ==> Is(H3, ls[0])) && x < |ls|
    ensures k < |Parts(ls)| && LineOf(Parts(ls)[k], y, ls[x])
    decreases |ls|
  {
    hide Parts, UpTo;
    var body := UpTo(H3, ls[1..]);
    var rest := ls[1 + |body|..];
    PartsCons(ls, body, rest);
    if x <= |body| {
      k, y := 0, x - 1;
      assert ls[x] == ([ls[0]] + body)[x];
    } else {
      k, y := FindPart(rest, x - 1 - |body|);
      k := k + 1;
    }
  }

  /** What collecting the parts comes to: each part names a category of its own, and the stripped body
      is listed under it. */
  lemma {:induction false} CollectSpec(parts: seq<Part>, acc: Bodies)
    requires Headed(parts) && Collect(parts, acc).Success?
    ensures forall k :: 0 <= k < |parts| ==>
      var c := CategoryOf(parts[k].heading);
      && c.Some? && c.value !in acc && c.value in Collect(parts, acc).value
      && Collect(parts, acc).value[c.value] == StripBlock(parts[k].body)
    ensures forall j, k :: 0 <= j < k < |parts| ==> CategoryOf(parts[j].heading) != CategoryOf(parts[k].heading)
    decreases |parts|
  {
    if parts != [] {
      var c := CategoryOf(parts[0].heading).value;
      var next := acc[c := StripBlock(parts[0].body)];
      CollectSpec(parts[1..], next);
      CollectKeeps(parts[1..], next, c);
      assert forall k :: 0 < k < |parts| ==> parts[k] == parts[1..][k - 1];
    }
  }

  /** In a section that was split, a line that is neither blank nor a comment is past what precedes the
      first category. */
  lemma PastPreamble(body: Lines, x: nat)
    requires SplitSection(body).Success? && x < |body| && !AllSpace(body[x])
    requires !(x < |UpTo(H3, body)| && IsComment(body[x]))
    ensures x >= |UpTo(H3, body)|
  {
    hide Loose;
    if x < |UpTo(H3, body)| {
      LooseLine(UpTo(H3, body), body, x);
    }
  }

  lemma LooseLine(preamble: Lines, body: Lines, x: nat)
    requires preamble <= body && x < |preamble| && !AllSpace(body[x]) && !IsComment(body[x])
    ensures Loose(preamble)
  {
    BlankIff(body[x]);
    assert preamble[x] == body[x];
  }

  /** And it is a line of a body that was collected. */
  lemma LineOfSection(body: Lines, existing: Bodies, x: nat) returns (part: Part, y: int)
    requires SplitSection(body) == Success(existing) && x < |body|
    requires !AllSpace(body[x]) && !Is(H3, body[x]) && !(x < |UpTo(H3, body)| && IsComment(body[x]))
    ensures 0 <= y < |part.body| && part.body[y] == body[x]
    ensures exists c :: c in existing && existing[c] == StripBlock(part.body)
  {
    hide Parts, UpTo, Collect, CategoryOf, IsComment, StripBlock;
    PastPreamble(body, x);
    var rest := body[|UpTo(H3, body)|..];
    PartsAreHeaded(rest);
    var k: nat;
    k, y := FindPart(rest, x - |UpTo(H3, body)|);
    part := Parts(rest)[k];
    CollectSpec(Parts(rest), map[]);
  }

  /** A body already under a category has the category's first slot. */
  lemma OwnSlot(r: Release, c: Category)
    requires r.cats == CATEGORIES && c in r.existing && r.existing[c] != []
    ensures Holds(r, Slot(IndexOf(c), 0)) && TextAt(r, Slot(IndexOf(c), 0)) == r.existing[c]
  {
  }

  lemma LineStands(out: Lines, low: int, high: int, p: int, body: Lines, y: nat)
    requires Sits(out, p, StripBlock(body)) && low <= p && p + |StripBlock(body)| <= high
    requires y < |body| && !AllSpace(body[y])
    ensures exists q :: low <= q < high && Stands(out, q, body[y])
  {
    hide StrippedAt, Stands, StripBlock, Sits;
    StripBlockSpec(body);
    BlockLinesStand(out, p, body, StripBlock(body), Skipped(body));
    var q := p + y - Skipped(body);
    assert Stands(out, q, body[y]);
    assert low <= q < high;
  }

  lemma ExistingStands(r: Release, frame: Frame, out: Lines, c: Category, body: Lines, y: nat)
    requires r.cats == CATEGORIES && AllPlaced(frame, r, out) && c in r.existing && r.existing[c] == StripBlock(body)
    requires y < |body| && !AllSpace(body[y])
    ensures exists q :: |frame.before| + 6 <= q < |out| - |frame.After()| && Stands(out, q, body[y])
  {
    hide StripBlock, StrippedAt, Place, TextAt, Holds;
    StripBlockSpec(body);
    LinesAreKept(body, StripBlock(body), Skipped(body), y);
    OwnSlot(r, c);
    var own := Slot(IndexOf(c), 0);
    LineStands(out, |frame.before| + 6, |out| - |frame.After()|, Place(frame, r, own), body, y);
  }

  /** Every line under the Unreleased heading that is not blank stands in the new section, but for the
      category headings, which are written anew, and the comments before the first of them. */
  lemma UnreleasedLinesAreKept(ls: Lines, r: Release, version: string, date: string, dateOk: bool, frame: Frame,
                               out: Lines, x: nat)
    requires CutFrom(ls, r, version, date, dateOk, frame, out)
    requires x < |frame.body| && !AllSpace(frame.body[x])
    ensures || Is(H3, frame.body[x])
            || (x < |UpTo(H3, frame.body)| && IsComment(frame.body[x]))
            || exists q :: |frame.before| + 6 <= q < |out| - |frame.After()| && Stands(out, q, frame.body[x])
  {
    if !Is(H3, frame.body[x]) && !(x < |UpTo(H3, frame.body)| && IsComment(frame.body[x])) {
      ReleaseConserves(ls, r, version, date, dateOk, frame, out);
      var part, y := LineOfSection(frame.body, r.existing, x);
      var c :| c in r.existing && r.existing[c] == StripBlock(part.body);
      ExistingStands(r, frame, out, c, part.body, y);
    }
  }

  // ---- lists that stay one ----

  /** The first line that is not blank opens, blanks aside, with a dash or a star and a space. */
  predicate BulletAt(ls: Lines, i: int, k: int) {
    && 0 <= i < |ls| && 0 <= k && k + 2 <= |ls[i]|
    && (forall j :: 0 <= j < i ==> AllSpace(ls[j]))
    && (forall x :: 0 <= x < k ==> IsSpace(ls[i][x]))
    && (ls[i][k] == '-' || ls[i][k] == '*') && ls[i][k + 1] == ' '
  }

  ghost predicate OpensWithBullet(ls: Lines) {
    exists i, k :: BulletAt(ls, i, k)
  }

  predicate IsBullet(line: string) {
    |line| >= 2 && (line[0] == '-' || line[0] == '*') && line[1] == ' '
  }

  lemma BulletPrefix(line: string)
    ensures "- " <= line || "* " <= line <==> IsBullet(line)
  {
  }

  lemma FrontBullet(ls: Lines, front: Lines, a: int)
    requires FrontAt(ls, front, a) && front != [] && IsBullet(front[0])
    ensures OpensWithBullet(ls)
  {
    var k := |ls[a]| - |front[0]|;
    assert front[0] == ls[a][k..];
    assert front[0][0] == ls[a][k] && front[0][1] == ls[a][k + 1];
    assert BulletAt(ls, a, k);
  }

  lemma BulletInFront(ls: Lines, front: Lines, a: int, i: int, k: int)
    requires FrontAt(ls, front, a) && BulletAt(ls, i, k)
    ensures front != [] && IsBullet(front[0])
  {
    assert !IsSpace(ls[i][k]);
    assert front != [];
    var m := |ls[a]| - |front[0]|;
    assert front[0] == ls[a][m..] && ls[a][m] == front[0][0];
    assert i == a && k == m;
    assert front[0][1] == ls[a][k + 1];
  }

  lemma OpensWithBulletIff(ls: Lines)
    ensures StartsWithBullet(ls) <==> OpensWithBullet(ls)
  {
    hide StripFront, FrontAt, BulletAt;
    var front, a := StripFront(ls), Skipped(ls);
    StripFrontSpec(ls);
    if front != [] {
      BulletPrefix(front[0]);
      if IsBullet(front[0]) {
        FrontBullet(ls, front, a);
      }
    }
    if i, k :| BulletAt(ls, i, k) {
      BulletInFront(ls, front, a, i, k);
    }
  }

  /** The last paragraph: the lines at the end, back to the last empty one. */
  lemma {:induction false} LastParagraphSpec(ls: Lines)
    ensures var p := LastParagraph(ls);
      && |p| <= |ls| && p == ls[|ls| - |p|..] && "" !in p
      && (|p| < |ls| ==> ls[|ls| - |p| - 1] == "")
    decreases |ls|
  {
    if ls != [] && ls[|ls| - 1] != "" {
      LastParagraphSpec(ls[..|ls| - 1]);
    }
  }

  /** A block follows what was joined before it with no empty line between exactly when the last
      paragraph before and the block both open with a bullet; otherwise with one. */
  lemma JoinedTightIff(blocks: seq<Lines>, k: nat)
    requires k < |blocks| && blocks[k] != [] && Before(blocks, k) != []
    ensures var before := Before(blocks, k);
      Before(blocks, k + 1) == before
        + (if OpensWithBullet(LastParagraph(before)) && OpensWithBullet(blocks[k]) then [] else [""])
        + blocks[k]
  {
    BeforeNext(blocks, k);
    OpensWithBulletIff(LastParagraph(Before(blocks, k)));
    OpensWithBulletIff(blocks[k]);
  }

  // ---- when a release is cut ----

  /** The section's headings name categories, none of them twice. */
  predicate HeadingsOk(parts: seq<Part>)
    requires Headed(parts)
  {
    && (forall k :: 0 <= k < |parts| ==> CategoryOf(parts[k].heading).Some?)
    && forall j, k :: 0 <= j < k < |parts| ==> CategoryOf(parts[j].heading) != CategoryOf(parts[k].heading)
  }

  /** And none that has been collected already. */
  predicate Fresh(parts: seq<Part>, acc: Bodies)
    requires Headed(parts)
  {
    forall k :: 0 <= k < |parts| ==> CategoryOf(parts[k].heading).Some? ==> CategoryOf(parts[k].heading).value !in acc
  }

  lemma HeadingsCons(parts: seq<Part>, acc: Bodies, c: Category)
    requires Headed(parts) && parts != [] && CategoryOf(parts[0].heading) == Some(c) && c !in acc
    ensures HeadingsOk(parts) && Fresh(parts, acc) <==>
      HeadingsOk(parts[1..]) && Fresh(parts[1..], acc[c := StripBlock(parts[0].body)])
  {
    var rest := parts[1..];
    assert forall k :: 0 < k < |parts| ==> parts[k] == rest[k - 1];
    assert forall k :: 0 <= k < |rest| ==> rest[k] == parts[k + 1];
  }

  lemma {:induction false} CollectedIff(parts: seq<Part>, acc: Bodies)
    requires Headed(parts)
    ensures Collect(parts, acc).Success? <==> HeadingsOk(parts) && Fresh(parts, acc)
    ensures Collect(parts, acc).Failure? ==>
      Collect(parts, acc).error.UnknownCategory? || Collect(parts, acc).error.RepeatedCategory?
    decreases |parts|
  {
    if parts != [] {
      var category := CategoryOf(parts[0].heading);
      if category.Some? && category.value !in acc {
        HeadingsCons(parts, acc, category.value);
        CollectedIff(parts[1..], acc[category.value := StripBlock(parts[0].body)]);
      }
    }
  }

  lemma {:induction false} JoinEmptyIff(blocks: seq<Lines>)
    ensures Join(blocks) == [] <==> forall b :: b in blocks ==> b == []
    decreases |blocks|
  {
    if blocks != [] {
      var init, last := blocks[..|blocks| - 1], blocks[|blocks| - 1];
      assert blocks == init + [last];
      JoinEmptyIff(init);
      assert last in blocks && forall b :: b in blocks <==> b in init || b == last;
    }
  }

  lemma {:induction false} TextsUnder(fragments: seq<Fragment>, c: Category, text: Lines)
    ensures text in TextsOf(fragments, c) <==> exists f :: f in fragments && f.category == c && f.text == text
  {
    if fragments != [] {
      var rest := fragments[1..];
      assert fragments == [fragments[0]] + rest;
      TextsUnder(rest, c, text);
      if f :| f in rest && f.category == c && f.text == text {
        assert f in fragments;
      }
      assert fragments[0] in fragments;
    }
  }

  predicate EmptyUnder(existing: Bodies, fragments: seq<Fragment>, c: Category) {
    && (c in existing ==> existing[c] == [])
    && forall f :: f in fragments && f.category == c ==> f.text == []
  }

  lemma BodyEmptyIff(existing: Bodies, fragments: seq<Fragment>, c: Category)
    ensures Join(Blocks(existing, fragments, c)) == [] <==> EmptyUnder(existing, fragments, c)
  {
    var blocks, texts := Blocks(existing, fragments, c), TextsOf(fragments, c);
    JoinEmptyIff(blocks);
    forall b
      ensures b in blocks <==> b == (if c in existing then existing[c] else []) || b in texts
    {
    }
    forall b
      ensures b in texts <==> exists f :: f in fragments && f.category == c && f.text == b
    {
      TextsUnder(fragments, c, b);
    }
    if EmptyUnder(existing, fragments, c) {
      assert forall b :: b in blocks ==> b == [];
    } else if c in existing && existing[c] != [] {
      assert existing[c] in blocks;
    } else {
      var f :| f in fragments && f.category == c && f.text != [];
      assert f.text in texts;
      assert f.text in blocks;
    }
  }

  /** There is nothing to release exactly when every existing body and every fragment is empty. */
  lemma NothingMergedIff(existing: Bodies, fragments: seq<Fragment>)
    ensures MergedBodies(existing, fragments) == map[] <==>
      (forall c :: c in existing ==> existing[c] == []) && forall f :: f in fragments ==> f.text == []
  {
    var merged := MergedBodies(existing, fragments);
    forall c: Category
      ensures c in merged <==> !EmptyUnder(existing, fragments, c)
    {
      BodyEmptyIff(existing, fragments, c);
      if !EmptyUnder(existing, fragments, c) {
        InMerged(existing, fragments, c);
      }
    }
    forall c | c in existing
      ensures existing[c] != [] ==> c in merged
    {
      assert existing[c] != [] ==> !EmptyUnder(existing, fragments, c);
    }
    forall f | f in fragments
      ensures f.text != [] ==> f.category in merged
    {
      assert f.text != [] ==> !EmptyUnder(existing, fragments, f.category);
    }
  }

  lemma SplitIff(body: Lines)
    ensures var preamble := UpTo(H3, body);
      var rest := body[|preamble|..];
      && Headed(Parts(rest))
      && (SplitSection(body).Success? <==> !Loose(preamble) && HeadingsOk(Parts(rest)))
      && (SplitSection(body) == Failure(LooseText) <==> Loose(preamble))
    ensures SplitSection(body).Failure? ==>
      var e := SplitSection(body).error;
      e.LooseText? || e.UnknownCategory? || e.RepeatedCategory?
  {
    var rest := body[|UpTo(H3, body)|..];
    PartsAreHeaded(rest);
    CollectedIff(Parts(rest), map[]);
  }

  /** What comes before the document is looked at: a version and a date, and a version that is not
      released yet. */
  predicate MayCut(ls: Lines, version: string, dateOk: bool) {
    && VersionOk(version) && dateOk
    && forall i :: 0 <= i < |ls| ==> !("## [" + version + "]" <= ls[i])
  }

  /** Whether a release is cut, and what refuses it, on the document and the fragments: a bad version; a
      bad date; a version with a section already; no Unreleased heading; text there that belongs to no
      category, or a heading that names none or one that was there before; or nothing to release. */
  lemma CutIff(ls: Lines, fragments: seq<Fragment>, version: string, date: string, dateOk: bool)
    ensures var r, frame := Assemble(ls, fragments, version, date, dateOk), FrameOf(ls);
      && (r == Failure(BadVersion) <==> !VersionOk(version))
      && (r == Failure(BadDate) <==> VersionOk(version) && !dateOk)
      && (r == Failure(VersionExists) <==>
            VersionOk(version) && dateOk && exists i :: 0 <= i < |ls| && "## [" + version + "]" <= ls[i])
      && (r == Failure(NoUnreleased) <==>
            MayCut(ls, version, dateOk) && forall i :: 0 <= i < |ls| ==> !IsUnreleased(ls[i]))
      && (MayCut(ls, version, dateOk) && frame.Some? ==>
            match SplitSection(frame.value.body)
            case Failure(e) => r == Failure(e)
            case Success(existing) =>
              && (r.Failure? ==> r == Failure(NothingToRelease))
              && (r.Failure? <==>
                    && (forall c :: c in existing ==> existing[c] == [])
                    && forall f :: f in fragments ==> f.text == []))
  {
    hide MergedBodies, Document, SplitSection, IsUnreleased, VersionOk;
    UnreleasedFoundIff(ls);
    var frame := FrameOf(ls);
    if frame.Some? {
      SplitIff(frame.value.body);
      if SplitSection(frame.value.body).Success? {
        NothingMergedIff(SplitSection(frame.value.body).value, fragments);
      }
    }
  }
}
