/** The drift check's independent rewrite: sub-flow references get the plugin's prefix, by
    splicing replacements into the text at the positions the YAML parser reported. */
module DriftSplice {
  import opened Outcomes

  datatype Replacement = Replacement(start: int, end: int, text: string)

  datatype Error =
    | NotAMapping | NoNodes | NodesNotASequence | EntryNotAMapping
    | NoTemplate | UnknownTemplate(name: string) | UnsupportedStyle
    | OverlappingSpans | InvalidSpan

  datatype Result<+T> = Success(value: T) | Failure(error: Error)

  // ---- sorting by start, stably ----

  function Insert(rs: seq<Replacement>, r: Replacement): seq<Replacement> {
    if rs == [] || rs[|rs| - 1].start <= r.start then rs + [r]
    else Insert(rs[..|rs| - 1], r) + [rs[|rs| - 1]]
  }

  function Sorted(rs: seq<Replacement>): seq<Replacement> {
    if rs == [] then [] else Insert(Sorted(rs[..|rs| - 1]), rs[|rs| - 1])
  }

  lemma {:induction false} InsertPermutes(rs: seq<Replacement>, r: Replacement)
    ensures multiset(Insert(rs, r)) == multiset(rs) + multiset{r}
    decreases |rs|
  {
    if rs != [] && rs[|rs| - 1].start > r.start {
      assert rs == rs[..|rs| - 1] + [rs[|rs| - 1]];
      InsertPermutes(rs[..|rs| - 1], r);
    }
  }

  predicate Ascending(rs: seq<Replacement>) {
    forall i, j :: 0 <= i < j < |rs| ==> rs[i].start <= rs[j].start
  }

  /** Whatever bounds the starts before, and the new one, bounds them after. */
  lemma {:induction false} InsertStaysBelow(rs: seq<Replacement>, r: Replacement, bound: int)
    requires r.start <= bound && forall i :: 0 <= i < |rs| ==> rs[i].start <= bound
    ensures forall i :: 0 <= i < |Insert(rs, r)| ==> Insert(rs, r)[i].start <= bound
    decreases |rs|
  {
    if rs != [] {
      InsertStaysBelow(rs[..|rs| - 1], r, bound);
    }
  }

  lemma {:induction false} InsertKeepsOrder(rs: seq<Replacement>, r: Replacement)
    requires Ascending(rs)
    ensures Ascending(Insert(rs, r))
    decreases |rs|
  {
    if rs != [] && rs[|rs| - 1].start > r.start {
      var init, last := rs[..|rs| - 1], rs[|rs| - 1];
      InsertKeepsOrder(init, r);
      InsertStaysBelow(init, r, last.start);
    }
  }

  /** Sorting is a sorting: the same replacements, in order of their starts. */
  lemma {:induction false} SortedSpec(rs: seq<Replacement>)
    ensures multiset(Sorted(rs)) == multiset(rs)
    ensures Ascending(Sorted(rs))
    decreases |rs|
  {
    if rs != [] {
      var init, last := rs[..|rs| - 1], rs[|rs| - 1];
      assert rs == init + [last];
      SortedSpec(init);
      InsertPermutes(Sorted(init), last);
      InsertKeepsOrder(Sorted(init), last);
    }
  }

  // ---- a document cut at its replacement spans ----

  /** Text, with some stretches set aside to be replaced. */
  datatype Layout =
    | End(text: string)
    | Cell(gap: string, before: string, after: string, rest: Layout)

  function RenderBefore(l: Layout): string {
    match l
    case End(text) => text
    case Cell(gap, before, _, rest) => gap + before + RenderBefore(rest)
  }

  function RenderAfter(l: Layout): string {
    match l
    case End(text) => text
    case Cell(gap, _, after, rest) => gap + after + RenderAfter(rest)
  }

  /** Where the stretches lie in the text before, if it starts at position `at`. */
  function Spans(l: Layout, at: nat): seq<Replacement> {
    match l
    case End(_) => []
    case Cell(gap, before, after, rest) =>
      var start := at + |gap|;
      [Replacement(start, start + |before|, after)] + Spans(rest, start + |before|)
  }

  // ---- splicing ----

  /** Every span lies in the text, and no span starts before an earlier one has ended. */
  predicate Fits(text: string, ordered: seq<Replacement>) {
    && (forall i :: 0 <= i < |ordered| ==> 0 <= ordered[i].start <= ordered[i].end <= |text|)
    && (forall i, j :: 0 <= i < j < |ordered| ==> ordered[i].end <= ordered[j].start)
  }

  /** What the code checks instead: neighbours only. */
  predicate Adjacent(text: string, ordered: seq<Replacement>) {
    && (forall i :: 0 <= i < |ordered| ==> 0 <= ordered[i].start <= ordered[i].end <= |text|)
    && (forall i :: 0 < i < |ordered| ==> ordered[i - 1].end <= ordered[i].start)
  }

  lemma AdjacentIsPairwise(text: string, ordered: seq<Replacement>)
    ensures Adjacent(text, ordered) <==> Fits(text, ordered)
  {
    if Adjacent(text, ordered) {
      forall i, j | 0 <= i < j < |ordered|
        ensures ordered[i].end <= ordered[j].start
      {
        EndsBefore(text, ordered, i, j);
      }
    }
  }

  lemma {:induction false} EndsBefore(text: string, ordered: seq<Replacement>, i: nat, j: nat)
    requires Adjacent(text, ordered) && i < j < |ordered|
    ensures ordered[i].end <= ordered[j].start
    decreases j
  {
    if i < j - 1 {
      EndsBefore(text, ordered, i, j - 1);
    }
  }

  predicate Ahead(text: string, cursor: int, r: Replacement) {
    0 <= cursor <= r.start <= r.end <= |text|
  }

  /** Cut `text` at the spans, from `cursor` on. */
  function Cut(text: string, ordered: seq<Replacement>, cursor: int): Layout
    decreases |ordered|
  {
    if ordered == [] then End(if 0 <= cursor <= |text| then text[cursor..] else "")
    else if !Ahead(text, cursor, ordered[0]) then End("")
    else
      var r := ordered[0];
      Cell(text[cursor..r.start], text[r.start..r.end], r.text, Cut(text, ordered[1..], r.end))
  }

  /** Cutting loses nothing and puts the spans where they were. */
  lemma {:induction false} CutIsExact(text: string, ordered: seq<Replacement>, cursor: nat)
    requires Adjacent(text, ordered) && cursor <= |text|
    requires ordered != [] ==> cursor <= ordered[0].start
    ensures RenderBefore(Cut(text, ordered, cursor)) == text[cursor..]
    ensures Spans(Cut(text, ordered, cursor), cursor) == ordered
    decreases |ordered|
  {
    if ordered != [] {
      var r := ordered[0];
      AdjacentTail(text, ordered);
      CutIsExact(text, ordered[1..], r.end);
      Slices(text, cursor, r.start, r.end);
      assert [r] + ordered[1..] == ordered;
    }
  }

  lemma Slices(text: string, a: nat, b: nat, c: nat)
    requires a <= b <= c <= |text|
    ensures text[a..] == text[a..b] + text[b..c] + text[c..]
    ensures |text[a..b]| == b - a && |text[b..c]| == c - b
  {
  }

  lemma AdjacentTail(text: string, ordered: seq<Replacement>)
    requires Adjacent(text, ordered) && ordered != []
    ensures Adjacent(text, ordered[1..])
    ensures ordered[1..] != [] ==> ordered[0].end <= ordered[1..][0].start
  {
    assert forall i :: 0 <= i < |ordered[1..]| ==> ordered[1..][i] == ordered[i + 1];
  }

  /** Any layout's own spans fit its text. */
  lemma {:induction false} SpansAreAdjacent(l: Layout, prefix: string)
    ensures Adjacent(prefix + RenderBefore(l), Spans(l, |prefix|))
    ensures Spans(l, |prefix|) != [] ==> |prefix| <= Spans(l, |prefix|)[0].start
  {
    if l.Cell? {
      var longer := prefix + l.gap + l.before;
      assert prefix + RenderBefore(l) == longer + RenderBefore(l.rest);
      SpansAreAdjacent(l.rest, longer);
    }
  }

  /** A document whose references are set aside as `l` is rewritten to exactly `l` rendered with the
      new references: the layout of a text and its spans is unique. */
  lemma {:induction false} CutFindsTheLayout(l: Layout, prefix: string)
    ensures Cut(prefix + RenderBefore(l), Spans(l, |prefix|), |prefix|) == l
  {
    var text := prefix + RenderBefore(l);
    if l.End? {
      assert text[|prefix|..] == l.text;
    } else {
      var longer := prefix + l.gap + l.before;
      assert text == longer + RenderBefore(l.rest);
      CutFindsTheLayout(l.rest, longer);
      var start := |prefix| + |l.gap|;
      assert text[|prefix|..start] == l.gap;
      assert text[start..start + |l.before|] == l.before;
      assert Spans(l, |prefix|)[1..] == Spans(l.rest, |longer|);
    }
  }

  predicate InOrder(ordered: seq<Replacement>) {
    forall i :: 0 < i < |ordered| ==> ordered[i - 1].end <= ordered[i].start
  }

  method NeighboursInOrder(ordered: seq<Replacement>) returns (ok: bool)
    ensures ok == InOrder(ordered)
  {
    for k := 0 to |ordered|
      invariant forall i :: 0 < i < k ==> ordered[i - 1].end <= ordered[i].start
    {
      if k > 0 && ordered[k].start < ordered[k - 1].end {
        return false;
      }
    }
    ok := true;
  }

  lemma CutNext(text: string, ordered: seq<Replacement>, k: nat, cursor: int, out: string)
    requires k < |ordered| && Ahead(text, cursor, ordered[k])
    ensures out + RenderAfter(Cut(text, ordered[k..], cursor)) ==
      out + (text[cursor..ordered[k].start] + ordered[k].text)
        + RenderAfter(Cut(text, ordered[k + 1..], ordered[k].end))
  {
    assert ordered[k..][0] == ordered[k] && ordered[k..][1..] == ordered[k + 1..];
  }

  method Weave(text: string, ordered: seq<Replacement>) returns (r: Result<string>)
    requires InOrder(ordered)
    ensures r.Success? <==> Adjacent(text, ordered)
    ensures r.Success? ==> r.value == RenderAfter(Cut(text, ordered, 0))
    ensures r.Failure? ==> r.error == InvalidSpan
  {
    var out, cursor := "", 0;
    for k := 0 to |ordered|
      invariant forall i :: 0 <= i < k ==> 0 <= ordered[i].start <= ordered[i].end <= |text|
      invariant cursor == if k == 0 then 0 else ordered[k - 1].end
      invariant out + RenderAfter(Cut(text, ordered[k..], cursor)) == RenderAfter(Cut(text, ordered, 0))
    {
      var r := ordered[k];
      if !(0 <= r.start <= r.end <= |text|) {
        return Failure(InvalidSpan);
      }
      CutNext(text, ordered, k, cursor, out);
      out := out + (text[cursor..r.start] + r.text);
      cursor := r.end;
    }
    r := Success(out + text[cursor..]);
  }

  /** `_splice`: refuse overlapping or invalid spans, otherwise replace each span's text. The
      adjacent-pair check is enough to rule out every overlap. */
  method Splice(text: string, replacements: seq<Replacement>) returns (r: Result<string>)
    ensures r.Success? <==> Fits(text, Sorted(replacements))
    ensures r.Success? ==> r.value == RenderAfter(Cut(text, Sorted(replacements), 0))
    ensures r.Failure? ==> r.error == if InOrder(Sorted(replacements)) then InvalidSpan else OverlappingSpans
  {
    var ordered := Sorted(replacements);
    AdjacentIsPairwise(text, ordered);
    if replacements == [] {
      return Success(text);
    }
    var ok := NeighboursInOrder(ordered);
    if !ok {
      return Failure(OverlappingSpans);
    }
    r := Weave(text, ordered);
  }

  /** Splicing is a structural rewrite: for every document, set aside anywhere, splicing its
      replacements in any order that sorts to document order gives the document rendered with the
      new references, and the text outside them is untouched. */
  lemma SpliceIsARewrite(l: Layout, replacements: seq<Replacement>)
    requires Sorted(replacements) == Spans(l, 0)
    ensures Fits(RenderBefore(l), Sorted(replacements))
    ensures RenderAfter(Cut(RenderBefore(l), Sorted(replacements), 0)) == RenderAfter(l)
  {
    assert "" + RenderBefore(l) == RenderBefore(l);
    SpansAreAdjacent(l, "");
    AdjacentIsPairwise(RenderBefore(l), Spans(l, 0));
    CutFindsTheLayout(l, "");
  }

  /** Conversely, whatever is spliced successfully was such a document. */
  lemma EverySpliceIsOne(text: string, replacements: seq<Replacement>)
    requires Fits(text, Sorted(replacements))
    ensures var l := Cut(text, Sorted(replacements), 0);
      RenderBefore(l) == text && Spans(l, 0) == Sorted(replacements)
  {
    AdjacentIsPairwise(text, Sorted(replacements));
    CutIsExact(text, Sorted(replacements), 0);
  }

  // ---- which references are rewritten ----

  datatype Style = Plain | DoubleQuoted | SingleQuoted | OtherStyle

  datatype Node =
    | Scalar(value: string, style: Style, start: int, end: int)
    | Mapping(pairs: seq<(Node, Node)>)
    | Sequence(items: seq<Node>)

  predicate Keyed(p: (Node, Node), key: string) {
    p.0.Scalar? && p.0.value == key
  }

  /** The first value under `nodes`. */
  function NodesOf(pairs: seq<(Node, Node)>): Option<Node> {
    if pairs == [] then None else if Keyed(pairs[0], "nodes") then Some(pairs[0].1) else NodesOf(pairs[1..])
  }

  /** The last scalar under `kind`. */
  function KindOf(pairs: seq<(Node, Node)>): Option<string> {
    if pairs == [] then None else
    var last := pairs[|pairs| - 1];
    if Keyed(last, "kind") && last.1.Scalar? then Some(last.1.value) else KindOf(pairs[..|pairs| - 1])
  }

  /** The last value under `template`. */
  function TemplateOf(pairs: seq<(Node, Node)>): Option<Node> {
    if pairs == [] then None else
    var last := pairs[|pairs| - 1];
    if Keyed(last, "template") then Some(last.1) else TemplateOf(pairs[..|pairs| - 1])
  }

  /** Pair `i` is under the key `key`. */
  predicate KeyAt(pairs: seq<(Node, Node)>, i: int, key: string) {
    0 <= i < |pairs| && pairs[i].0.Scalar? && pairs[i].0.value == key
  }

  /** The first of several `nodes` keys counts. */
  lemma {:induction false} NodesOfSpec(pairs: seq<(Node, Node)>, n: Node)
    ensures NodesOf(pairs) == Some(n) <==>
      exists i :: KeyAt(pairs, i, "nodes") && pairs[i].1 == n && forall j :: 0 <= j < i ==> !KeyAt(pairs, j, "nodes")
    ensures NodesOf(pairs) == None <==> forall i :: !KeyAt(pairs, i, "nodes")
  {
    if pairs != [] {
      var rest := pairs[1..];
      NodesOfSpec(rest, n);
      assert forall i :: 0 <= i < |rest| ==> rest[i] == pairs[i + 1];
      if Keyed(pairs[0], "nodes") {
        assert KeyAt(pairs, 0, "nodes");
      } else {
        if i :| KeyAt(rest, i, "nodes") && rest[i].1 == n && forall j :: 0 <= j < i ==> !KeyAt(rest, j, "nodes") {
          assert KeyAt(pairs, i + 1, "nodes");
          assert forall j :: 0 < j < i + 1 ==> !KeyAt(rest, j - 1, "nodes") && !KeyAt(pairs, j, "nodes");
        }
        forall i | KeyAt(pairs, i, "nodes")
          ensures KeyAt(rest, i - 1, "nodes")
        {
        }
        forall i | KeyAt(rest, i, "nodes")
          ensures KeyAt(pairs, i + 1, "nodes")
        {
        }
      }
    }
  }

  /** The last of several scalar `kind` values counts. */
  lemma {:induction false} KindOfSpec(pairs: seq<(Node, Node)>, kind: string)
    ensures KindOf(pairs) == Some(kind) <==>
      exists i :: KeyAt(pairs, i, "kind") && pairs[i].1.Scalar? && pairs[i].1.value == kind
        && forall j :: i < j < |pairs| && KeyAt(pairs, j, "kind") ==> !pairs[j].1.Scalar?
    decreases |pairs|
  {
    if pairs != [] {
      var init, k := pairs[..|pairs| - 1], |pairs| - 1;
      KindOfSpec(init, kind);
      assert forall i :: 0 <= i < k ==> init[i] == pairs[i];
      assert forall i :: 0 <= i < k ==> (KeyAt(init, i, "kind") <==> KeyAt(pairs, i, "kind"));
      if Keyed(pairs[k], "kind") && pairs[k].1.Scalar? {
        assert KeyAt(pairs, k, "kind");
      }
    }
  }

  /** The last of several `template` values counts, whatever it is. */
  lemma {:induction false} TemplateOfSpec(pairs: seq<(Node, Node)>, t: Node)
    ensures TemplateOf(pairs) == Some(t) <==>
      exists i :: KeyAt(pairs, i, "template") && pairs[i].1 == t
        && forall j :: i < j < |pairs| ==> !KeyAt(pairs, j, "template")
    decreases |pairs|
  {
    if pairs != [] {
      var init, k := pairs[..|pairs| - 1], |pairs| - 1;
      TemplateOfSpec(init, t);
      assert forall i :: 0 <= i < k ==> init[i] == pairs[i];
      assert forall i :: 0 <= i < k ==> (KeyAt(init, i, "template") <==> KeyAt(pairs, i, "template"));
      if Keyed(pairs[k], "template") {
        assert KeyAt(pairs, k, "template");
      }
    }
  }

  datatype Manifest = Manifest(plugin: string, known: set<string>) {
    function Prefix(name: string): string {
      plugin + "_" + name
    }

    predicate AlreadyPrefixed(ref: string) {
      exists name :: name in known && ref == Prefix(name)
    }
  }

  predicate IsSubFlow(item: Node) {
    item.Mapping? && KindOf(item.pairs) == Some("sub_flow")
  }

  /** The reference a node's text is replaced with. */
  function Quoted(style: Style, text: string): string {
    match style
    case DoubleQuoted => "\"" + text + "\""
    case SingleQuoted => "'" + text + "'"
    case _ => text
  }

  type Rewrite = Result<Option<Replacement>>

  /** A sub-flow entry whose reference is one of the plugin's own names, in a style that can be
      rewritten. */
  predicate Owned(m: Manifest, item: Node) {
    && IsSubFlow(item)
    && var t := TemplateOf(item.pairs);
    t.Some? && t.value.Scalar? && t.value.value in m.known && t.value.style != OtherStyle
  }

  /** What one entry of `nodes` contributes: nothing, one replacement, or an error. */
  function RewriteOf(m: Manifest, item: Node): Rewrite {
    if !item.Mapping? then Failure(EntryNotAMapping)
    else if !IsSubFlow(item) then Success(None)
    else
      var t := TemplateOf(item.pairs);
      if t.None? || !t.value.Scalar? then Failure(NoTemplate)
      else if m.AlreadyPrefixed(t.value.value) then Success(None)
      else if t.value.value !in m.known then Failure(UnknownTemplate(t.value.value))
      else if t.value.style == OtherStyle then Failure(UnsupportedStyle)
      else Success(Some(Replacement(t.value.start, t.value.end, Quoted(t.value.style, m.Prefix(t.value.value)))))
  }

  /** What an entry contributes: a reference is rewritten exactly when it is one of the plugin's own
      and does not read as the prefixed form of one. */
  lemma RewrittenIff(m: Manifest, item: Node)
    ensures RewriteOf(m, item).Success? && RewriteOf(m, item).value.Some? <==>
      Owned(m, item) && !m.AlreadyPrefixed(TemplateOf(item.pairs).value.value)
  {
  }

  /** The entry is a sub-flow whose template is the scalar `t`. */
  predicate RefersBy(item: Node, t: Node) {
    item.Mapping? && KindOf(item.pairs) == Some("sub_flow") && TemplateOf(item.pairs) == Some(t) && t.Scalar?
  }

  /** `ref` reads as the plugin's prefix before one of its names. */
  predicate ReadsAsPrefixed(m: Manifest, ref: string) {
    exists name :: name in m.known && ref == m.plugin + "_" + name
  }

  /** Why an entry leaves no export, if it does: it is no mapping; it is a sub-flow without a scalar
      template; its reference is neither one of the plugin's names nor the prefixed form of one; or it
      is one of the names, not such a form, and in a style that cannot be rewritten. */
  ghost predicate RefusedWith(m: Manifest, item: Node, e: Error) {
    match e
    case EntryNotAMapping => !item.Mapping?
    case NoTemplate =>
      && item.Mapping? && KindOf(item.pairs) == Some("sub_flow")
      && (TemplateOf(item.pairs) == None || !TemplateOf(item.pairs).value.Scalar?)
    case UnknownTemplate(ref) =>
      exists t :: RefersBy(item, t) && t.value == ref && ref !in m.known && !ReadsAsPrefixed(m, ref)
    case UnsupportedStyle =>
      exists t :: RefersBy(item, t) && t.value in m.known && !ReadsAsPrefixed(m, t.value) && t.style == OtherStyle
    case _ => false
  }

  /** What an entry asks for: its reference, one of the plugin's names and not the prefixed form of
      one, gives way to the prefixed name inside the quotes the reference is written in. */
  ghost predicate Asks(m: Manifest, item: Node, r: Replacement) {
    exists t ::
      && RefersBy(item, t) && t.value in m.known && !ReadsAsPrefixed(m, t.value)
      && r.start == t.start && r.end == t.end
      && match t.style
         case Plain => r.text == m.plugin + "_" + t.value
         case DoubleQuoted => r.text == "\"" + m.plugin + "_" + t.value + "\""
         case SingleQuoted => r.text == "'" + m.plugin + "_" + t.value + "'"
         case OtherStyle => false
  }

  lemma PrefixedAlike(m: Manifest, ref: string)
    ensures m.AlreadyPrefixed(ref) <==> ReadsAsPrefixed(m, ref)
  {
    if m.AlreadyPrefixed(ref) {
      var name :| name in m.known && ref == m.Prefix(name);
      assert ref == m.plugin + "_" + name;
    }
    if name :| name in m.known && ref == m.plugin + "_" + name {
      assert ref == m.Prefix(name);
    }
  }

  /** Each entry is refused, with the error of its case, or asks for its replacement, or neither, on
      the entry and the plugin's names alone. */
  lemma DecidedOnNode(m: Manifest, item: Node)
    ensures forall e :: RewriteOf(m, item) == Failure(e) <==> RefusedWith(m, item, e)
    ensures forall r :: RewriteOf(m, item) == Success(Some(r)) <==> Asks(m, item, r)
  {
    if IsSubFlow(item) && TemplateOf(item.pairs).Some? && TemplateOf(item.pairs).value.Scalar? {
      var t := TemplateOf(item.pairs).value;
      PrefixedAlike(m, t.value);
      assert RefersBy(item, t);
      assert "\"" + m.Prefix(t.value) + "\"" == "\"" + m.plugin + "_" + t.value + "\"";
      assert "'" + m.Prefix(t.value) + "'" == "'" + m.plugin + "_" + t.value + "'";
    }
  }

  /** An entry that refers to `name`. */
  function SubFlow(name: string): Node {
    Mapping([(Scalar("kind", Plain, 0, 0), Scalar("sub_flow", Plain, 0, 0)),
             (Scalar("template", Plain, 0, 0), Scalar(name, Plain, 0, 0))])
  }

  lemma SubFlowRefersTo(name: string)
    ensures IsSubFlow(SubFlow(name)) && TemplateOf(SubFlow(name).pairs) == Some(Scalar(name, Plain, 0, 0))
  {
    var pairs := SubFlow(name).pairs;
    assert "template" != "kind" by {
      assert "template"[0] != "kind"[0];
    }
    assert Keyed(pairs[1], "template") && !Keyed(pairs[1], "kind");
    var init := pairs[..1];
    assert init == [pairs[0]] && Keyed(init[0], "kind");
    assert KindOf(init) == Some("sub_flow") && KindOf(pairs) == KindOf(pairs[..|pairs| - 1]);
  }

  /** Every reference to a template of the plugin's own is rewritten if and only if none of the
      plugin's names is the prefixed form of another: the code looks for the prefixed form first. */
  lemma OwnedAreRewrittenIff(m: Manifest)
    ensures (forall item: Node :: Owned(m, item) ==> RewriteOf(m, item).Success? && RewriteOf(m, item).value.Some?) <==>
      forall name :: name in m.known ==> !m.AlreadyPrefixed(name)
  {
    forall item: Node
      ensures RewriteOf(m, item).Success? && RewriteOf(m, item).value.Some? <==>
        Owned(m, item) && !m.AlreadyPrefixed(TemplateOf(item.pairs).value.value)
    {
      RewrittenIff(m, item);
    }
    forall name | name in m.known
      ensures Owned(m, SubFlow(name)) && TemplateOf(SubFlow(name).pairs).value.value == name
    {
      SubFlowRefersTo(name);
    }
  }

  /** With plugin `p` and templates `a` and `p_a`, a reference to `p_a` is left as it is. */
  lemma ShadowedNameIsLeftAlone()
    ensures var m := Manifest("p", {"a", "p_a"});
      Owned(m, SubFlow("p_a")) && RewriteOf(m, SubFlow("p_a")) == Success(None)
  {
    var m := Manifest("p", {"a", "p_a"});
    SubFlowRefersTo("p_a");
    assert m.Prefix("a") == "p_a";
    assert m.AlreadyPrefixed("p_a");
  }

  function RewritesOf(m: Manifest, items: seq<Node>): seq<Rewrite> {
    seq(|items|, i requires 0 <= i < |items| => RewriteOf(m, items[i]))
  }

  /** All the replacements, or the first error. */
  function Gather(rewrites: seq<Rewrite>): Result<seq<Replacement>> {
    if rewrites == [] then Success([]) else
    var init := Gather(rewrites[..|rewrites| - 1]);
    if init.Failure? then init else
    match rewrites[|rewrites| - 1]
    case Failure(e) => Failure(e)
    case Success(None) => init
    case Success(Some(r)) => Success(init.value + [r])
  }

  /** Gathering fails as soon as one entry does, and otherwise keeps exactly the replacements the
      entries asked for. */
  lemma {:induction false} GatherSpec(rewrites: seq<Rewrite>)
    ensures Gather(rewrites).Success? <==> forall i :: 0 <= i < |rewrites| ==> rewrites[i].Success?
    ensures Gather(rewrites).Success? ==> forall r :: r in Gather(rewrites).value <==> Success(Some(r)) in rewrites
    ensures Gather(rewrites).Failure? ==> Failure(Gather(rewrites).error) in rewrites
    ensures Gather(rewrites) == Success([]) <==> forall i :: 0 <= i < |rewrites| ==> rewrites[i] == Success(None)
    decreases |rewrites|
  {
    if rewrites != [] {
      var init, last := rewrites[..|rewrites| - 1], rewrites[|rewrites| - 1];
      assert rewrites == init + [last];
      GatherSpec(init);
      if last.Success? && last.value.Some? && Gather(init).Success? {
        assert |Gather(rewrites).value| > 0;
      }
    }
  }

  /** As often as they did. */
  lemma {:induction false} GatherCounts(rewrites: seq<Rewrite>, r: Replacement)
    requires Gather(rewrites).Success?
    ensures multiset(Gather(rewrites).value)[r] == multiset(rewrites)[Success(Some(r))]
    decreases |rewrites|
  {
    if rewrites != [] {
      assert rewrites == rewrites[..|rewrites| - 1] + [rewrites[|rewrites| - 1]];
      GatherCounts(rewrites[..|rewrites| - 1], r);
    }
  }

  /** The first error is the one reported. */
  lemma {:induction false} GatherStops(rewrites: seq<Rewrite>, k: nat)
    requires k <= |rewrites| && Gather(rewrites[..k]).Failure?
    ensures Gather(rewrites) == Gather(rewrites[..k])
    decreases |rewrites|
  {
    if k < |rewrites| {
      var init := rewrites[..|rewrites| - 1];
      assert init[..k] == rewrites[..k];
      GatherStops(init, k);
    } else {
      assert rewrites[..k] == rewrites;
    }
  }

  /** No entry is refused. */
  ghost predicate AllDecided(m: Manifest, items: seq<Node>) {
    forall i, e :: 0 <= i < |items| ==> !RefusedWith(m, items[i], e)
  }

  /** The names in a rewritten export: one refused entry, whatever the reason, leaves no export at all;
      otherwise the text changes at exactly the references that some entry asks to have replaced, and
      as it asks. */
  lemma RewritesAreExact(m: Manifest, items: seq<Node>)
    ensures Gather(RewritesOf(m, items)).Success? <==> AllDecided(m, items)
    ensures AllDecided(m, items) ==>
      forall r :: r in Gather(RewritesOf(m, items)).value <==> exists i :: 0 <= i < |items| && Asks(m, items[i], r)
  {
    var rewrites := RewritesOf(m, items);
    GatherSpec(rewrites);
    forall i | 0 <= i < |items|
      ensures rewrites[i].Success? <==> forall e :: !RefusedWith(m, items[i], e)
      ensures forall r :: rewrites[i] == Success(Some(r)) <==> Asks(m, items[i], r)
    {
      DecidedOnNode(m, items[i]);
      assert rewrites[i].Failure? ==> RefusedWith(m, items[i], rewrites[i].error);
    }
    forall r
      ensures Success(Some(r)) in rewrites <==> exists i :: 0 <= i < |items| && Asks(m, items[i], r)
    {
      if i :| 0 <= i < |items| && Asks(m, items[i], r) {
        assert rewrites[i] == Success(Some(r));
      }
    }
  }

  /** What the export must be: nothing, unless every step can be decided. */
  function ExpectedExport(m: Manifest, text: string, root: Node): Result<string> {
    if !root.Mapping? then Failure(NotAMapping) else
    var nodes := NodesOf(root.pairs);
    if nodes.None? then Failure(NoNodes)
    else if !nodes.value.Sequence? then Failure(NodesNotASequence)
    else
      match Gather(RewritesOf(m, nodes.value.items))
      case Failure(e) => Failure(e)
      case Success(rs) =>
        if Fits(text, Sorted(rs)) then Success(RenderAfter(Cut(text, Sorted(rs), 0)))
        else Failure(if InOrder(Sorted(rs)) then InvalidSpan else OverlappingSpans)
  }

  method ComputeExpectedExport(m: Manifest, text: string, root: Node) returns (r: Result<string>)
    ensures r == ExpectedExport(m, text, root)
  {
    if !root.Mapping? {
      return Failure(NotAMapping);
    }
    var nodes := NodesOf(root.pairs);
    if nodes.None? {
      return Failure(NoNodes);
    }
    if !nodes.value.Sequence? {
      return Failure(NodesNotASequence);
    }
    var items := nodes.value.items;
    var replacements := [];
    ghost var rewrites := RewritesOf(m, items);
    for k := 0 to |items|
      invariant Gather(rewrites[..k]) == Success(replacements)
    {
      assert rewrites[..k + 1][..k] == rewrites[..k];
      var rewrite := RewriteOf(m, items[k]);
      assert rewrites[k] == rewrite;
      if rewrite.Failure? {
        GatherStops(rewrites, k + 1);
        return Failure(rewrite.error);
      }
      if rewrite.value.Some? {
        replacements := replacements + [rewrite.value.value];
      }
    }
    assert rewrites[..|items|] == rewrites;
    r := Splice(text, replacements);
  }

  /** `l` reads as `text`, reads as `out` once its cells are replaced, and has its cells exactly
      where and what the rewrites say. */
  ghost predicate Explains(l: Layout, text: string, out: string, rs: seq<Replacement>) {
    RenderBefore(l) == text && RenderAfter(l) == out && Spans(l, 0) == Sorted(rs)
  }

  /** The check fails closed: one refused entry leaves no export, and the error is that of the first
      one. */
  lemma RefusedEntryLeavesNoExport(m: Manifest, text: string, root: Node, i: nat, e: Error)
    requires root.Mapping? && NodesOf(root.pairs).Some? && NodesOf(root.pairs).value.Sequence?
    requires i < |NodesOf(root.pairs).value.items| && RefusedWith(m, NodesOf(root.pairs).value.items[i], e)
    requires AllDecided(m, NodesOf(root.pairs).value.items[..i])
    ensures ExpectedExport(m, text, root) == Failure(e)
  {
    var items := NodesOf(root.pairs).value.items;
    var rewrites := RewritesOf(m, items);
    DecidedOnNode(m, items[i]);
    RewritesAreExact(m, items[..i]);
    assert rewrites[..i] == RewritesOf(m, items[..i]);
    assert rewrites[..i + 1] == rewrites[..i] + [rewrites[i]];
    GatherStops(rewrites, i + 1);
  }

  /** The other errors: the document is no mapping, has no `nodes`, or these are no sequence. */
  lemma OtherErrors(m: Manifest, text: string, root: Node)
    ensures var r := ExpectedExport(m, text, root);
      && (r == Failure(NotAMapping) <==> !root.Mapping?)
      && (r == Failure(NoNodes) <==> root.Mapping? && forall i :: !KeyAt(root.pairs, i, "nodes"))
      && (r == Failure(NodesNotASequence) <==>
            root.Mapping? && NodesOf(root.pairs).Some? && !NodesOf(root.pairs).value.Sequence?)
  {
    if root.Mapping? {
      NodesOfSpec(root.pairs, root);
      if NodesOf(root.pairs).Some? && NodesOf(root.pairs).value.Sequence? {
        var rewrites := RewritesOf(m, NodesOf(root.pairs).value.items);
        GatherSpec(rewrites);
        if Gather(rewrites).Failure? {
          var i :| 0 <= i < |rewrites| && rewrites[i] == Failure(Gather(rewrites).error);
          assert RewriteOf(m, NodesOf(root.pairs).value.items[i]) == Failure(Gather(rewrites).error);
        }
      }
    }
  }

  /** The whole rewrite. A document has an export if and only if no entry is refused and the document
      is a layout whose cells are exactly the replacements its entries ask for; the export is that
      layout rendered with these in its cells. */
  lemma ExportIsARewrite(m: Manifest, text: string, root: Node, out: string)
    requires root.Mapping? && NodesOf(root.pairs).Some? && NodesOf(root.pairs).value.Sequence?
    ensures var items := NodesOf(root.pairs).value.items;
      && (Gather(RewritesOf(m, items)).Success? <==> AllDecided(m, items))
      && (ExpectedExport(m, text, root) == Success(out) <==>
            AllDecided(m, items) && exists l :: Explains(l, text, out, Gather(RewritesOf(m, items)).value))
  {
    var items := NodesOf(root.pairs).value.items;
    RewritesAreExact(m, items);
    if Gather(RewritesOf(m, items)).Success? {
      var rs := Gather(RewritesOf(m, items)).value;
      if Fits(text, Sorted(rs)) {
        EverySpliceIsOne(text, rs);
        assert Explains(Cut(text, Sorted(rs), 0), text, RenderAfter(Cut(text, Sorted(rs), 0)), rs);
      }
      forall l | Explains(l, text, out, rs)
        ensures Fits(text, Sorted(rs)) && RenderAfter(Cut(text, Sorted(rs), 0)) == out
      {
        SpliceIsARewrite(l, rs);
      }
    }
  }

  // ---- the rewritten document ----

  /** The same document with its cells read the other way round. */
  function Swap(l: Layout): Layout {
    match l
    case End(text) => End(text)
    case Cell(gap, before, after, rest) => Cell(gap, after, before, Swap(rest))
  }

  lemma {:induction false} SwapRenders(l: Layout)
    ensures RenderBefore(Swap(l)) == RenderAfter(l) && RenderAfter(Swap(l)) == RenderBefore(l)
  {
    if l.Cell? {
      SwapRenders(l.rest);
    }
  }

  /** A splice can be undone by a splice: putting the old texts back where the new ones went gives
      the original text, so nothing else was touched. */
  lemma SpliceIsReversible(text: string, replacements: seq<Replacement>, back: seq<Replacement>)
    requires Fits(text, Sorted(replacements))
    requires Sorted(back) == Spans(Swap(Cut(text, Sorted(replacements), 0)), 0)
    ensures var out := RenderAfter(Cut(text, Sorted(replacements), 0));
      Fits(out, Sorted(back)) && RenderAfter(Cut(out, Sorted(back), 0)) == text
  {
    var l := Cut(text, Sorted(replacements), 0);
    EverySpliceIsOne(text, replacements);
    SwapRenders(l);
    SpliceIsARewrite(Swap(l), back);
  }

  /** Where the text of replacement `r` starts once all are spliced; `at` and `to` are where `l`
      starts before and after. */
  function Moved(l: Layout, at: nat, to: nat, r: Replacement): Option<nat> {
    match l
    case End(_) => None
    case Cell(gap, before, after, rest) =>
      if r == Replacement(at + |gap|, at + |gap| + |before|, after) then Some(to + |gap|)
      else Moved(rest, at + |gap| + |before|, to + |gap| + |after|, r)
  }

  /** In the rewritten text, the new reference is what stands where its replacement went. */
  lemma {:induction false} MovedReads(l: Layout, at: nat, prefix: string, r: Replacement)
    requires r in Spans(l, at)
    ensures var p, out := Moved(l, at, |prefix|, r), prefix + RenderAfter(l);
      p.Some? && p.value + |r.text| <= |out| && out[p.value..p.value + |r.text|] == r.text
  {
    var first := Replacement(at + |l.gap|, at + |l.gap| + |l.before|, l.after);
    var longer := prefix + l.gap + l.after;
    assert prefix + RenderAfter(l) == longer + RenderAfter(l.rest);
    if r == first {
      var p := |prefix| + |l.gap|;
      assert (longer + RenderAfter(l.rest))[p..p + |l.after|] == l.after;
    } else {
      assert Spans(l, at)[1..] == Spans(l.rest, first.end);
      MovedReads(l.rest, first.end, longer, r);
    }
  }

  /** A scalar whose value is what its own stretch of the text says. */
  predicate Verbatim(text: string, n: Node) {
    n.Scalar? && 0 <= n.start <= n.end <= |text| && text[n.start..n.end] == Quoted(n.style, n.value)
  }

  /** How an entry parses once the document, laid out as `l`, has been rewritten to `out`: a mapping
      of the same kind; a rewritten reference is a scalar of the same style that stands where the
      rewrite put it and reads what the text there says; any other reference is as it was. */
  ghost predicate Reread(m: Manifest, l: Layout, out: string, a: Node, b: Node) {
    && b.Mapping? && a.Mapping?
    && KindOf(b.pairs) == KindOf(a.pairs)
    && (IsSubFlow(a) ==>
          var s, t := TemplateOf(a.pairs), TemplateOf(b.pairs);
          && s.Some? && s.value.Scalar? && t.Some? && t.value.Scalar?
          && match RewriteOf(m, a)
             case Success(Some(r)) =>
               && t.value.style == s.value.style && Verbatim(out, t.value)
               && Moved(l, 0, 0, r) == Some(t.value.start) && t.value.end == t.value.start + |r.text|
             case _ => t.value.value == s.value.value)
  }

  lemma QuotedIsInjective(style: Style, a: string, b: string)
    requires Quoted(style, a) == Quoted(style, b)
    ensures a == b
  {
    if style == DoubleQuoted || style == SingleQuoted {
      assert Quoted(style, a)[1..|a| + 1] == a && Quoted(style, b)[1..|b| + 1] == b;
    }
  }

  /** A rewritten reference reads as the prefixed name, so there is nothing left to rewrite. */
  lemma RereadIsDone(m: Manifest, l: Layout, a: Node, b: Node)
    requires RewriteOf(m, a).Success? && Reread(m, l, RenderAfter(l), a, b)
    requires RewriteOf(m, a).value.Some? ==> RewriteOf(m, a).value.value in Spans(l, 0)
    ensures RewriteOf(m, b) == Success(None)
  {
    if IsSubFlow(a) && RewriteOf(m, a).value.Some? {
      var r := RewriteOf(m, a).value.value;
      var s, t := TemplateOf(a.pairs).value, TemplateOf(b.pairs).value;
      MovedReads(l, 0, "", r);
      assert "" + RenderAfter(l) == RenderAfter(l);
      QuotedIsInjective(s.style, t.value, m.Prefix(s.value));
      assert s.value in m.known && t.value == m.Prefix(s.value);
    }
  }

  /** Rewriting a rewritten document is the identity: however it parses, as long as its entries are
      the same mappings and each rewritten reference reads what the new text says at its place. */
  lemma RewriteIsIdempotent(m: Manifest, text: string, root: Node, out: string, root': Node)
    requires ExpectedExport(m, text, root) == Success(out)
    requires root'.Mapping? && NodesOf(root'.pairs).Some? && NodesOf(root'.pairs).value.Sequence?
    requires var before, after := NodesOf(root.pairs).value.items, NodesOf(root'.pairs).value.items;
      var l := Cut(text, Sorted(Gather(RewritesOf(m, before)).value), 0);
      |before| == |after| && forall i :: 0 <= i < |before| ==> Reread(m, l, out, before[i], after[i])
    ensures ExpectedExport(m, out, root') == Success(out)
  {
    var before, after := NodesOf(root.pairs).value.items, NodesOf(root'.pairs).value.items;
    var rs := Gather(RewritesOf(m, before)).value;
    var l := Cut(text, Sorted(rs), 0);
    EverySpliceIsOne(text, rs);
    GatherSpec(RewritesOf(m, before));
    GatherSpec(RewritesOf(m, after));
    forall i | 0 <= i < |after|
      ensures RewritesOf(m, after)[i] == Success(None)
    {
      InSorted(rs);
      assert RewritesOf(m, before)[i] == RewriteOf(m, before[i]);
      RereadIsDone(m, l, before[i], after[i]);
    }
    assert out[0..] == out;
  }

  lemma InSorted(rs: seq<Replacement>)
    ensures forall r :: r in rs <==> r in Sorted(rs)
  {
    SortedSpec(rs);
    forall r
      ensures r in rs <==> r in Sorted(rs)
    {
      assert r in rs <==> r in multiset(rs);
      assert r in Sorted(rs) <==> r in multiset(Sorted(rs));
    }
  }
}
