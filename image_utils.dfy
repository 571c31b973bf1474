/** The tagged-output parser of the OCR service. The recognizer writes each
    region it found as `<|ref|>LABEL<|/ref|><|det|>QUADS<|/det|>`; this module
    finds those spans left to right (the lazy, dot-all regular expression of
    `re_match` and `parse_blocks_with_text`), splits them into picture spans and
    other spans, pulls out labels, quads and the first line of text after each
    span, and maps the 0..999 quads to pixel boxes. */
module ImageUtils {
  import opened Results
  import opened Strings
  import opened DetParser
  import opened Schemas

  const RefOpen: string := "<|ref|>"
  const RefCloseDetOpen: string := "<|/ref|><|det|>"
  const DetClose: string := "<|/det|>"
  /** The marker whose presence anywhere in a span makes it a picture span. */
  const ImageRef: string := "<|ref|>image<|/ref|>"

  // ---------------------------------------------------------------------------
  // Spans and the scanner
  // ---------------------------------------------------------------------------

  /** Where one match sits in the text: `<|ref|>` at `start`, the label up to
      `labelEnd`, `<|/ref|><|det|>` there, the det text up to `detEnd`, then
      `<|/det|>`. */
  datatype Span = Span(start: nat, labelEnd: nat, detEnd: nat) {
    function LabelStart(): nat { start + |RefOpen| }
    function DetStart(): nat { labelEnd + |RefCloseDetOpen| }
    function End(): nat { detEnd + |DetClose| }
  }

  /** `sp` is a place where the pattern matches `text`. */
  predicate IsMatch(text: string, sp: Span) {
    StartsAt(text, sp.start, RefOpen)
    && sp.LabelStart() <= sp.labelEnd && StartsAt(text, sp.labelEnd, RefCloseDetOpen)
    && sp.DetStart() <= sp.detEnd && StartsAt(text, sp.detEnd, DetClose)
  }

  /** The match of the lazy pattern at position `i`, if any: the label ends at
      the first `<|/ref|><|det|>` after `<|ref|>`, and the det text at the first
      `<|/det|>` after that. */
  function MatchAt(text: string, i: nat): (r: Option<Span>)
    ensures r.Some? ==> r.value.start == i && IsMatch(text, r.value)
    ensures r.Some? ==> forall l :: r.value.LabelStart() <= l < r.value.labelEnd
                          ==> !StartsAt(text, l, RefCloseDetOpen)
    ensures r.Some? ==> forall d :: r.value.DetStart() <= d < r.value.detEnd
                          ==> !StartsAt(text, d, DetClose)
  {
    if !StartsAt(text, i, RefOpen) then None
    else match FindFrom(text, RefCloseDetOpen, i + |RefOpen|)
      case None => None
      case Some(l) =>
        match FindFrom(text, DetClose, l + |RefCloseDetOpen|)
        case None => None
        case Some(d) => Some(Span(i, l, d))
  }

  /** Backtracking to a later label end can never succeed where the first one
      failed, so `MatchAt` is exactly the regular expression's choice: of all
      the matches that start at `sp.start`, the one with the shortest label,
      and for that label the shortest det text. */
  lemma {:induction false} MatchAtIsLeast(text: string, sp: Span)
    requires IsMatch(text, sp)
    ensures MatchAt(text, sp.start).Some?
    ensures var m := MatchAt(text, sp.start).value;
      m.labelEnd < sp.labelEnd || (m.labelEnd == sp.labelEnd && m.detEnd <= sp.detEnd)
  {
  }

  /** Consecutive spans do not overlap and come in text order. */
  predicate Ordered(spans: seq<Span>) {
    forall k :: 0 <= k < |spans| - 1 ==> spans[k].End() <= spans[k + 1].start
  }

  /** Position `j` lies inside one of the spans. */
  predicate Covered(spans: seq<Span>, j: nat) {
    exists k :: 0 <= k < |spans| && spans[k].start <= j < spans[k].End()
  }

  /** `findall`/`finditer` from position `i`: try the pattern at `i`; after a
      match go on at its end, otherwise at the next position. */
  function Scan(text: string, i: nat): (spans: seq<Span>)
    requires i <= |text|
    decreases |text| - i
  {
    if i == |text| then []
    else match MatchAt(text, i)
      case None => Scan(text, i + 1)
      case Some(sp) => [sp] + Scan(text, sp.End())
  }

  /** Every span in `spans` starts at or after `i` and is the pattern's
      match at its start. */
  predicate AllReported(text: string, i: nat, spans: seq<Span>) {
    forall k :: 0 <= k < |spans| ==>
      i <= spans[k].start && MatchAt(text, spans[k].start) == Some(spans[k])
  }

  lemma {:induction false} ConsReported(text: string, i: nat, sp: Span, rest: seq<Span>)
    requires MatchAt(text, i) == Some(sp)
    requires AllReported(text, sp.End(), rest)
    ensures AllReported(text, i, [sp] + rest)
  {
    var spans := [sp] + rest;
    forall k | 0 <= k < |spans|
      ensures i <= spans[k].start && MatchAt(text, spans[k].start) == Some(spans[k])
    {
      if k > 0 {
        assert spans[k] == rest[k - 1];
      }
    }
  }

  /** Every span the scanner reports is the pattern's match at its start. */
  lemma {:induction false} ScanSound(text: string, i: nat)
    requires i <= |text|
    ensures AllReported(text, i, Scan(text, i))
    decreases |text| - i
  {
    if i < |text| {
      var m := MatchAt(text, i);
      if m.None? {
        ScanSound(text, i + 1);
        assert AllReported(text, i, Scan(text, i + 1));
      } else {
        var sp := m.value;
        ScanSound(text, sp.End());
        ConsReported(text, i, sp, Scan(text, sp.End()));
      }
    }
  }

  /** The spans lie at or after `i`, in text order, without overlapping. */
  predicate OrderedFrom(i: nat, spans: seq<Span>) {
    Ordered(spans) && forall k :: 0 <= k < |spans| ==> i <= spans[k].start
  }

  lemma {:induction false} ConsOrdered(i: nat, sp: Span, rest: seq<Span>)
    requires i <= sp.start < sp.End()
    requires OrderedFrom(sp.End(), rest)
    ensures OrderedFrom(i, [sp] + rest)
  {
    var spans := [sp] + rest;
    forall k | 0 <= k < |spans| - 1
      ensures spans[k].End() <= spans[k + 1].start
    {
      assert spans[k + 1] == rest[k];
      if k > 0 {
        assert spans[k] == rest[k - 1];
      }
    }
    forall k | 0 < k < |spans|
      ensures i <= spans[k].start
    {
      assert spans[k] == rest[k - 1];
    }
  }

  /** The reported spans come in text order and do not overlap. */
  lemma {:induction false} ScanOrdered(text: string, i: nat)
    requires i <= |text|
    ensures OrderedFrom(i, Scan(text, i))
    decreases |text| - i
  {
    if i < |text| {
      var m := MatchAt(text, i);
      if m.None? {
        ScanOrdered(text, i + 1);
        assert OrderedFrom(i, Scan(text, i + 1));
      } else {
        var sp := m.value;
        ScanOrdered(text, sp.End());
        ConsOrdered(i, sp, Scan(text, sp.End()));
      }
    }
  }

  /** The scanner misses nothing: at every position it did not cover, the
      pattern does not match. */
  lemma {:induction false} ScanComplete(text: string, i: nat, j: nat)
    requires i <= j < |text|
    requires !Covered(Scan(text, i), j)
    ensures MatchAt(text, j).None?
    decreases |text| - i
  {
    match MatchAt(text, i)
    case None =>
      if j > i {
        ScanComplete(text, i + 1, j);
      }
    case Some(sp) =>
      var spans := Scan(text, i);
      var rest := Scan(text, sp.End());
      assert spans[0] == sp;
      assert j >= sp.End();
      forall k | 0 <= k < |rest|
        ensures !(rest[k].start <= j < rest[k].End())
      {
        assert rest[k] == spans[k + 1];
      }
      ScanComplete(text, sp.End(), j);
  }

  // ---------------------------------------------------------------------------
  // `re.findall`: the matches as (whole span, label, det) triples
  // ---------------------------------------------------------------------------

  /** One element of `re.findall(pattern, text)`: the whole span and the two
      groups, none of them stripped. */
  datatype Match = Match(full: string, labelText: string, detText: string)

  function MatchOf(text: string, sp: Span): Match
    requires IsMatch(text, sp)
  {
    Match(text[sp.start..sp.End()], text[sp.LabelStart()..sp.labelEnd],
          text[sp.DetStart()..sp.detEnd])
  }

  /** All matches of the pattern in `text`, left to right. */
  function FindAll(text: string): (ms: seq<Match>)
    ensures |ms| == |Scan(text, 0)|
  {
    var spans := Scan(text, 0);
    ScanSound(text, 0);
    seq(|spans|, k requires 0 <= k < |spans| => MatchOf(text, spans[k]))
  }

  /** The text of a span is its markers around its label and det text. */
  lemma {:induction false} SpanText(text: string, sp: Span)
    requires IsMatch(text, sp)
    ensures var m := MatchOf(text, sp);
      m.full == RefOpen + m.labelText + RefCloseDetOpen + m.detText + DetClose
  {
    SliceConcat(text, sp.start, sp.LabelStart(), sp.labelEnd);
    SliceConcat(text, sp.start, sp.labelEnd, sp.DetStart());
    SliceConcat(text, sp.start, sp.DetStart(), sp.detEnd);
    SliceConcat(text, sp.start, sp.detEnd, sp.End());
  }

  /** The groups of the match at a position are the shortest that fit. */
  lemma {:induction false} SpanGroupsShortest(text: string, sp: Span)
    requires MatchAt(text, sp.start) == Some(sp)
    ensures var m := MatchOf(text, sp);
      !Contains(m.labelText, RefCloseDetOpen) && !Contains(m.detText, DetClose)
  {
    NoneInWindow(text, sp.LabelStart(), sp.labelEnd, RefCloseDetOpen);
    NoneInWindow(text, sp.DetStart(), sp.detEnd, DetClose);
  }

  /** Each match is a whole tagged span: the label holds no
      `<|/ref|><|det|>` and the det text no `<|/det|>`, since both groups are
      the shortest that fit. */
  lemma {:induction false} MatchShape(text: string, k: nat)
    requires k < |FindAll(text)|
    ensures var m := FindAll(text)[k];
      m.full == RefOpen + m.labelText + RefCloseDetOpen + m.detText + DetClose
      && !Contains(m.labelText, RefCloseDetOpen) && !Contains(m.detText, DetClose)
  {
    ScanSound(text, 0);
    var sp := Scan(text, 0)[k];
    assert MatchAt(text, sp.start) == Some(sp);
    assert FindAll(text)[k] == MatchOf(text, sp);
    SpanText(text, sp);
    SpanGroupsShortest(text, sp);
  }

  // ---------------------------------------------------------------------------
  // `re_match`: picture spans and other spans
  // ---------------------------------------------------------------------------

  /** A span is a picture span when its whole text contains
      `<|ref|>image<|/ref|>`. */
  predicate IsImageSpan(full: string) {
    Contains(full, ImageRef)
  }

  function Fulls(ms: seq<Match>): (fs: seq<string>)
    ensures |fs| == |ms| && forall k :: 0 <= k < |ms| ==> fs[k] == ms[k].full
  {
    seq(|ms|, k requires 0 <= k < |ms| => ms[k].full)
  }

  /** The whole texts of the picture spans, in match order. */
  function ImageSpans(ms: seq<Match>): seq<string> {
    if ms == [] then []
    else
      var last := ms[|ms| - 1].full;
      ImageSpans(ms[..|ms| - 1]) + (if IsImageSpan(last) then [last] else [])
  }

  /** The whole texts of the other spans, in match order. */
  function OtherSpans(ms: seq<Match>): seq<string> {
    if ms == [] then []
    else
      var last := ms[|ms| - 1].full;
      OtherSpans(ms[..|ms| - 1]) + (if IsImageSpan(last) then [] else [last])
  }

  /** `re_match(text)`: all matches, then the picture spans and the other
      spans, each in match order. */
  method ReMatch(text: string) returns (matches: seq<Match>, images: seq<string>, others: seq<string>)
    ensures matches == FindAll(text)
    ensures images == ImageSpans(matches) && others == OtherSpans(matches)
  {
    matches := FindAll(text);
    images, others := [], [];
    for k := 0 to |matches|
      invariant images == ImageSpans(matches[..k])
      invariant others == OtherSpans(matches[..k])
    {
      assert matches[..k + 1][..k] == matches[..k];
      if Contains(matches[k].full, ImageRef) {
        images := images + [matches[k].full];
      } else {
        others := others + [matches[k].full];
      }
    }
    assert matches[..|matches|] == matches;
  }

  /** Splitting is compatible with concatenation, so both lists keep the
      relative order of the matches. */
  lemma {:induction false} SplitAppend(a: seq<Match>, b: seq<Match>)
    ensures ImageSpans(a + b) == ImageSpans(a) + ImageSpans(b)
    ensures OtherSpans(a + b) == OtherSpans(a) + OtherSpans(b)
    decreases |b|
  {
    if b == [] {
      assert a + b == a;
    } else {
      var c := a + b;
      assert c[..|c| - 1] == a + b[..|b| - 1];
      SplitAppend(a, b[..|b| - 1]);
    }
  }

  /** The two lists together hold every match exactly once. */
  lemma {:induction false} SplitPartitions(ms: seq<Match>)
    ensures multiset(ImageSpans(ms)) + multiset(OtherSpans(ms)) == multiset(Fulls(ms))
    decreases |ms|
  {
    if ms != [] {
      var init := ms[..|ms| - 1];
      var last := ms[|ms| - 1].full;
      SplitPartitions(init);
      FullsSnoc(ms);
      assert multiset(Fulls(init) + [last]) == multiset(Fulls(init)) + multiset{last};
      if IsImageSpan(last) {
        assert OtherSpans(ms) == OtherSpans(init) + [];
        assert OtherSpans(init) + [] == OtherSpans(init);
        assert multiset(ImageSpans(init) + [last]) == multiset(ImageSpans(init)) + multiset{last};
      } else {
        assert ImageSpans(ms) == ImageSpans(init) + [];
        assert ImageSpans(init) + [] == ImageSpans(init);
        assert multiset(OtherSpans(init) + [last]) == multiset(OtherSpans(init)) + multiset{last};
      }
    }
  }

  lemma {:induction false} FullsSnoc(ms: seq<Match>)
    requires ms != []
    ensures Fulls(ms) == Fulls(ms[..|ms| - 1]) + [ms[|ms| - 1].full]
  {
    var v, w := Fulls(ms), Fulls(ms[..|ms| - 1]) + [ms[|ms| - 1].full];
    forall x | 0 <= x < |v| ensures v[x] == w[x] {}
  }

  /** A text is in the picture list exactly when it is a picture span among the
      matches, and in the other list exactly when it is a match that is not. */
  lemma {:induction false} SplitMembership(ms: seq<Match>, x: string)
    ensures x in ImageSpans(ms) <==> x in Fulls(ms) && IsImageSpan(x)
    ensures x in OtherSpans(ms) <==> x in Fulls(ms) && !IsImageSpan(x)
    decreases |ms|
  {
    if ms != [] {
      var init := ms[..|ms| - 1];
      SplitMembership(init, x);
      FullsSnoc(ms);
    }
  }

  lemma {:induction false} ImageLabelText(d: string)
    ensures IsImageSpan(RefOpen + "image" + RefCloseDetOpen + d + DetClose)
  {
    var f := RefOpen + "image" + RefCloseDetOpen + d + DetClose;
    assert f[..|ImageRef|] == ImageRef;
    assert StartsAt(f, 0, ImageRef);
  }

  /** A region labelled exactly `image` is always a picture span. */
  lemma {:induction false} ImageLabelIsImage(text: string, k: nat)
    requires k < |FindAll(text)| && FindAll(text)[k].labelText == "image"
    ensures IsImageSpan(FindAll(text)[k].full)
  {
    MatchShape(text, k);
    ImageLabelText(FindAll(text)[k].detText);
  }

  // ---------------------------------------------------------------------------
  // `parse_blocks_with_text`
  // ---------------------------------------------------------------------------

  /** One region: its stripped label, its quads (empty when the det text is not
      a quad list) and the first non-blank line of the text after it. */
  datatype Block = Block(labelText: string, points: seq<Quad>, content: string)

  /** `eval(det)` if that gives a list, `[]` otherwise. */
  function PointsOf(det: string): seq<Quad> {
    match ParseDet(det)
    case Some(qs) => qs
    case None => []
  }

  /** The index of the first line of `lines` that is not all whitespace, or
      `|lines|` when there is none. */
  function FirstNonBlankIndex(lines: seq<string>): (i: nat)
    ensures i <= |lines|
    ensures forall k :: 0 <= k < i ==> AllSpace(lines[k])
    ensures i < |lines| ==> !AllSpace(lines[i])
  {
    if lines == [] then 0
    else if !AllSpace(lines[0]) then 0
    else
      var i := FirstNonBlankIndex(lines[1..]);
      assert forall k :: 0 < k < |lines| ==> lines[k] == lines[1..][k - 1];
      1 + i
  }

  /** The first line of `lines` that is not blank once stripped, stripped;
      `""` when every line is blank. */
  function FirstNonBlank(lines: seq<string>): (r: string)
    ensures r == "" <==> forall k :: 0 <= k < |lines| ==> AllSpace(lines[k])
  {
    var i := FirstNonBlankIndex(lines);
    if i < |lines| then Strip(lines[i]) else ""
  }

  /** Where the text after match `j` stops: at the next match, or at the end
      of the text. */
  function ContentStop(text: string, j: nat): nat
    requires j < |Scan(text, 0)|
  {
    var spans := Scan(text, 0);
    if j + 1 < |spans| then spans[j + 1].start else |text|
  }

  lemma {:induction false} ContentBounds(text: string, j: nat)
    requires j < |Scan(text, 0)|
    ensures Scan(text, 0)[j].End() <= ContentStop(text, j) <= |text|
  {
    var spans := Scan(text, 0);
    ScanSound(text, 0);
    ScanOrdered(text, 0);
    assert MatchAt(text, spans[j].start) == Some(spans[j]);
    if j + 1 < |spans| {
      assert MatchAt(text, spans[j + 1].start) == Some(spans[j + 1]);
    }
  }

  /** The text between the end of match `j` and the start of the next match,
      or the end of the text for the last one. */
  function Following(text: string, j: nat): string
    requires j < |Scan(text, 0)|
  {
    ContentBounds(text, j);
    text[Scan(text, 0)[j].End()..ContentStop(text, j)]
  }

  /** `Following` is the slice from the end of match `j` to the start of the
      next match or the end of the text. */
  lemma {:induction false} FollowingSlice(text: string, j: nat)
    requires j < |Scan(text, 0)|
    ensures var spans := Scan(text, 0);
      var stop := if j + 1 < |spans| then spans[j + 1].start else |text|;
      spans[j].End() <= stop <= |text| && text[spans[j].End()..stop] == Following(text, j)
  {
    ContentBounds(text, j);
  }

  /** The block of match `j` built from the slice `FollowingSlice` names is
      `BlockAt(text, j)`. */
  lemma {:induction false} BlockOfFollowing(text: string, j: nat, block: Block)
    requires j < |Scan(text, 0)|
    requires var spans := Scan(text, 0);
      var stop := if j + 1 < |spans| then spans[j + 1].start else |text|;
      spans[j].End() <= stop <= |text| && block == BlockOf(FindAll(text)[j], text[spans[j].End()..stop])
    ensures block == BlockAt(text, j)
  {
    FollowingSlice(text, j);
  }

  /** The block built from a match and the text that follows it. */
  function BlockOf(m: Match, following: string): Block {
    Block(Strip(m.labelText), PointsOf(Strip(m.detText)),
          FirstNonBlank(SplitLines(Strip(following))))
  }

  /** The block `parse_blocks_with_text` builds for match `j`. */
  function BlockAt(text: string, j: nat): Block
    requires j < |FindAll(text)|
  {
    BlockOf(FindAll(text)[j], Following(text, j))
  }

  /** The loop that looks for the first non-blank line and stops there. */
  method FirstLine(lines: seq<string>) returns (first: string)
    ensures first == FirstNonBlank(lines)
  {
    first := "";
    var i := 0;
    while i < |lines|
      invariant 0 <= i <= |lines|
      invariant forall k :: 0 <= k < i ==> AllSpace(lines[k])
    {
      var s := Strip(lines[i]);
      if s != "" {
        first := s;
        assert FirstNonBlankIndex(lines) == i;
        break;
      }
      i := i + 1;
    }
    if i == |lines| {
      assert FirstNonBlankIndex(lines) == |lines|;
    }
  }

  /** Extending a prefix of `s` by one entry. */
  lemma {:induction false} PrefixSnoc<T>(s: seq<T>, i: nat)
    requires i < |s|
    ensures s[..i + 1] == s[..i] + [s[i]]
  {
    var v, w := s[..i + 1], s[..i] + [s[i]];
    forall x | 0 <= x < |v| ensures v[x] == w[x] {}
  }

  /** `parse_blocks_with_text(text)`: one block per match, in match order. */
  method ParseBlocksWithText(text: string) returns (blocks: seq<Block>)
    ensures |blocks| == |FindAll(text)|
    ensures forall j :: 0 <= j < |blocks| ==> blocks[j] == BlockAt(text, j)
  {
    var iters := Scan(text, 0);
    var ms := FindAll(text);
    ghost var expected := seq(|ms|, j requires 0 <= j < |ms| => BlockAt(text, j));
    blocks := [];
    for idx := 0 to |iters|
      invariant blocks == expected[..idx]
    {
      var start := iters[idx].End();
      var stop := if idx + 1 < |iters| then iters[idx + 1].start else |text|;
      FollowingSlice(text, idx);
      var block := BuildBlock(ms[idx], text[start..stop]);
      BlockOfFollowing(text, idx, block);
      PrefixSnoc(expected, idx);
      blocks := blocks + [block];
    }
    assert blocks == expected;
  }

  /** The body of the loop in `parse_blocks_with_text` for one match. */
  method BuildBlock(m: Match, following: string) returns (block: Block)
    ensures block == BlockOf(m, following)
  {
    var labelText := Strip(m.labelText);
    var det := Strip(m.detText);
    var points := PointsOf(det);
    var content := Strip(following);
    var firstLine := FirstLine(SplitLines(content));
    block := Block(labelText, points, firstLine);
  }

  /** A det text written in the recognizer's own form gives back its quads. */
  lemma {:induction false} PointsOfRendered(qs: seq<Quad>)
    requires ListReadable(qs)
    ensures PointsOf(Strip(ListText(qs))) == qs
  {
    var t := ListText(qs);
    ListTextBrackets(qs);
    StripUnchanged(t);
    ListRoundTrip(qs);
  }

  // ---------------------------------------------------------------------------
  // `extract_coordinates_and_label` and `convert_matches_to_results`
  // ---------------------------------------------------------------------------

  /** The label as captured (not stripped) and the quads of the det text, or
      `None` when the det text does not evaluate. */
  function ExtractCoordinatesAndLabel(m: Match): (r: Option<(string, seq<Quad>)>)
    ensures r.Some? <==> ParseDet(m.detText).Some?
    ensures r.Some? ==> r.value.0 == m.labelText
  {
    var qs :- ParseDet(m.detText);
    Some((m.labelText, qs))
  }

  /** A region whose det text is a rendered quad list yields its own label and
      exactly those quads. */
  lemma {:induction false} ExtractRendered(full: string, labelText: string, qs: seq<Quad>)
    requires ListReadable(qs)
    ensures ExtractCoordinatesAndLabel(Match(full, labelText, ListText(qs))) == Some((labelText, qs))
  {
    ListRoundTrip(qs);
  }

  /** `int(c / 999 * dim)`: a 0..999 coordinate scaled to `dim` pixels,
      truncated. */
  function Scale(c: nat, dim: nat): (p: nat)
    ensures p * 999 <= c * dim < (p + 1) * 999
  {
    c * dim / 999
  }

  /** 0 maps to 0, 999 to the full size, and every coordinate in between to a
      pixel inside the image; larger coordinates give larger pixels. */
  lemma {:induction false} ScaleBounds(c: nat, c': nat, dim: nat)
    ensures Scale(0, dim) == 0 && Scale(999, dim) == dim
    ensures c <= 999 ==> Scale(c, dim) <= dim
    ensures c <= c' ==> Scale(c, dim) <= Scale(c', dim)
  {
    if c <= 999 {
      assert c * dim <= 999 * dim;
    }
    if c <= c' {
      assert c * dim <= c' * dim;
    }
  }

  /** The four corners, clockwise from the top left: `[x1, y1], [x2, y1],
      [x2, y2], [x1, y2]`, in pixels. */
  function Corners(q: Quad, width: nat, height: nat): seq<Point> {
    var x1, y1 := Scale(q.x1, width), Scale(q.y1, height);
    var x2, y2 := Scale(q.x2, width), Scale(q.y2, height);
    [Point(x1, y1), Point(x2, y1), Point(x2, y2), Point(x1, y2)]
  }

  /** `contents[idx]` when `contents` is non-empty and `idx` is in range. */
  function BoxText(contents: seq<string>, idx: nat): Option<string> {
    if |contents| > 0 && idx < |contents| then Some(contents[idx]) else None
  }

  /** `box_text or label_type`. */
  function ResultText(boxText: Option<string>, labelType: string): string {
    if boxText.Some? && boxText.value != "" then boxText.value else labelType
  }

  function MakeResult(labelType: string, text: string, q: Quad, width: nat, height: nat): OcrResult {
    OcrResult(labelType, text, 1.0, Corners(q, width, height))
  }

  /** The results of region `idx`: one per quad, in quad order; none when the
      det text does not evaluate. */
  function RegionResults(m: Match, idx: nat, contents: seq<string>, width: nat, height: nat): seq<OcrResult> {
    match ExtractCoordinatesAndLabel(m)
    case None => []
    case Some((labelType, qs)) =>
      QuadResults(labelType, ResultText(BoxText(contents, idx), labelType), qs, width, height)
  }

  /** One result per quad, in quad order, all with the same label and text. */
  function QuadResults(labelType: string, text: string, qs: seq<Quad>, width: nat, height: nat): seq<OcrResult>
    decreases |qs|
  {
    if qs == [] then []
    else QuadResults(labelType, text, qs[..|qs| - 1], width, height) + [MakeResult(labelType, text, qs[|qs| - 1], width, height)]
  }

  /** Result `k` of a region is quad `k` scaled to the image, and there is no
      other result. */
  lemma {:induction false} QuadResultsAt(labelType: string, text: string, qs: seq<Quad>, width: nat, height: nat)
    ensures |QuadResults(labelType, text, qs, width, height)| == |qs|
    ensures forall k :: 0 <= k < |qs| ==>
      QuadResults(labelType, text, qs, width, height)[k] == MakeResult(labelType, text, qs[k], width, height)
    decreases |qs|
  {
    if qs != [] {
      var init := qs[..|qs| - 1];
      QuadResultsAt(labelType, text, init, width, height);
      forall k | 0 <= k < |init| ensures init[k] == qs[k] {}
    }
  }

  /** A region whose det text does not evaluate gives nothing; otherwise
      result `k` carries the captured label, the box text when there is a
      non-empty one at the region's index and the label otherwise, full
      confidence, and the corners of quad `k`. */
  lemma {:induction false} RegionResultsCases(m: Match, idx: nat, contents: seq<string>, width: nat, height: nat)
    ensures ParseDet(m.detText).None? ==> RegionResults(m, idx, contents, width, height) == []
    ensures ParseDet(m.detText).Some? ==>
      var qs := ParseDet(m.detText).value;
      var rs := RegionResults(m, idx, contents, width, height);
      var text := if idx < |contents| && contents[idx] != "" then contents[idx] else m.labelText;
      |rs| == |qs| &&
      forall k :: 0 <= k < |qs| ==>
        rs[k].labelText == m.labelText && rs[k].text == text && rs[k].confidence == 1.0
        && rs[k].bbox == Corners(qs[k], width, height)
  {
    if ParseDet(m.detText).Some? {
      var qs := ParseDet(m.detText).value;
      var text := ResultText(BoxText(contents, idx), m.labelText);
      QuadResultsAt(m.labelText, text, qs, width, height);
    }
  }

  /** Every corner of a quad whose coordinates are at most 999 lies within
      the image, and the four corners trace an axis-aligned rectangle. When
      the first point is the top-left one (`x1 <= x2`, `y1 <= y2`), the
      corners run top-left, top-right, bottom-right, bottom-left: clockwise
      on a picture whose y axis points down. */
  lemma {:induction false} CornersInBounds(q: Quad, width: nat, height: nat)
    requires q.x1 <= 999 && q.y1 <= 999 && q.x2 <= 999 && q.y2 <= 999
    ensures var cs := Corners(q, width, height);
      |cs| == 4 &&
      (forall k :: 0 <= k < 4 ==> 0 <= cs[k].x <= width && 0 <= cs[k].y <= height)
      && cs[0].y == cs[1].y && cs[1].x == cs[2].x && cs[2].y == cs[3].y && cs[3].x == cs[0].x
    ensures var cs := Corners(q, width, height);
      q.x1 <= q.x2 && q.y1 <= q.y2 ==> cs[0].x <= cs[1].x && cs[1].y <= cs[2].y
  {
    ScaleBounds(q.x1, q.x2, width);
    ScaleBounds(q.y1, q.y2, height);
    ScaleBounds(q.x2, q.x2, width);
    ScaleBounds(q.y2, q.y2, height);
  }

  /** The results of the first `n` regions, in region order. */
  function ResultsUpTo(ms: seq<Match>, n: nat, contents: seq<string>, width: nat, height: nat): seq<OcrResult>
    requires n <= |ms|
  {
    if n == 0 then []
    else ResultsUpTo(ms, n - 1, contents, width, height) + RegionResults(ms[n - 1], n - 1, contents, width, height)
  }

  lemma {:induction false} ResultsUpToNext(ms: seq<Match>, n: nat, contents: seq<string>, width: nat, height: nat)
    requires n < |ms|
    ensures ResultsUpTo(ms, n + 1, contents, width, height)
         == ResultsUpTo(ms, n, contents, width, height) + RegionResults(ms[n], n, contents, width, height)
  {
  }

  /** `convert_matches_to_results(ms, width, height, contents)`; a missing
      `contents` is the empty list. */
  method ConvertMatchesToResults(ms: seq<Match>, width: nat, height: nat, contents: seq<string>)
    returns (results: seq<OcrResult>)
    ensures results == ResultsUpTo(ms, |ms|, contents, width, height)
  {
    results := [];
    if |ms| == 0 {
      return;
    }
    for idx := 0 to |ms|
      invariant results == ResultsUpTo(ms, idx, contents, width, height)
    {
      var region := ConvertRegion(ms[idx], idx, contents, width, height);
      ResultsUpToNext(ms, idx, contents, width, height);
      results := results + region;
    }
  }

  /** One turn of the outer loop of `convert_matches_to_results`: a region
      whose det text does not evaluate is skipped. */
  method ConvertRegion(m: Match, idx: nat, contents: seq<string>, width: nat, height: nat)
    returns (region: seq<OcrResult>)
    ensures region == RegionResults(m, idx, contents, width, height)
  {
    var extracted := ExtractCoordinatesAndLabel(m);
    if extracted.None? {
      return [];
    }
    var (labelType, points) := extracted.value;
    var boxText: Option<string> := None;
    if |contents| > 0 && idx < |contents| {
      boxText := Some(contents[idx]);
    }
    var text := if boxText.Some? && boxText.value != "" then boxText.value else labelType;
    region := QuadsToResults(labelType, text, points, width, height);
  }

  /** The inner loop of `convert_matches_to_results`: one result per quad. */
  method QuadsToResults(labelType: string, text: string, points: seq<Quad>, width: nat, height: nat)
    returns (region: seq<OcrResult>)
    ensures region == QuadResults(labelType, text, points, width, height)
  {
    region := [];
    for j := 0 to |points|
      invariant region == QuadResults(labelType, text, points[..j], width, height)
    {
      var q := points[j];
      var x1 := Scale(q.x1, width);
      var y1 := Scale(q.y1, height);
      var x2 := Scale(q.x2, width);
      var y2 := Scale(q.y2, height);
      var bbox := [Point(x1, y1), Point(x2, y1), Point(x2, y2), Point(x1, y2)];
      assert points[..j + 1][..j] == points[..j];
      region := region + [OcrResult(labelType, text, 1.0, bbox)];
    }
    assert points[..|points|] == points;
  }
}
