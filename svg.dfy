/** The SVG path reader: find every `<path ...>` tag of a document, take the value of
    its `d="..."` attribute, and read each path's segments (`M530,700 L529,701 ...`) as
    coordinate pairs. The regular-expression searches and `str.split` are library calls
    and are specified here as functions; the loops that collect their results are methods.
    Reading the file and printing are left out; parsing a number is a parameter `num`. */
module Svg {
  import opened Common

  type String = seq<char>

  /** `pat` occurs in `s` at position `i`. */
  predicate At(s: String, i: nat, pat: String) {
    i + |pat| <= |s| && s[i..i + |pat|] == pat
  }

  /** The first position at or after `j` holding `c`. */
  function NextChar(s: String, j: nat, c: char): (r: Option<nat>)
    ensures r.Some? ==> j <= r.value < |s| && s[r.value] == c
    ensures forall m :: j <= m < |s| && (r.None? || m < r.value) ==> s[m] != c
    decreases |s| - j
  {
    if j >= |s| then None
    else if s[j] == c then Some(j)
    else NextChar(s, j + 1, c)
  }

  // ---------------------------------------------------------------------------
  // `re.findall(r"<path[^>]*>", svg)`

  const PathOpen: String := "<path"

  /** The pattern matches at `i`: `<path`, then characters other than `>`, then `>`. */
  predicate TagAt(s: String, i: nat) {
    At(s, i, PathOpen) && NextChar(s, i + 5, '>').Some?
  }

  /** The spans `[start, end)` of the matches found scanning from `i`: the leftmost match,
      then the scan resumes after it. */
  function TagSpans(s: String, i: nat): seq<(nat, nat)>
    decreases |s| - i
  {
    if i >= |s| then []
    else if TagAt(s, i) then
      var close := NextChar(s, i + 5, '>').value;
      [(i, close + 1)] + TagSpans(s, close + 1)
    else TagSpans(s, i + 1)
  }

  /** A path tag: `<path` up to and including the first `>` after it. */
  predicate IsPathTag(t: String) {
    |t| >= 6 && t[..5] == PathOpen && t[|t| - 1] == '>' && forall m :: 5 <= m < |t| - 1 ==> t[m] != '>'
  }

  /** The scan finds nothing exactly when no match is left at or after `i`. */
  lemma {:induction false} TagSpansEmpty(s: String, i: nat)
    ensures TagSpans(s, i) == [] <==> forall j :: i <= j < |s| ==> !TagAt(s, j)
    decreases |s| - i
  {
    if i < |s| {
      if TagAt(s, i) {
        assert TagSpans(s, i) != [];
      } else {
        TagSpansEmpty(s, i + 1);
        assert TagSpans(s, i) == TagSpans(s, i + 1);
      }
    }
  }

  /** A non-empty scan starts with the first match at or after `i`, which runs to the first
      `>` after `<path`. */
  lemma {:induction false} TagSpansHead(s: String, i: nat)
    requires TagSpans(s, i) != []
    ensures var a := TagSpans(s, i)[0].0;
            i <= a && TagAt(s, a) && (forall j :: i <= j < a ==> !TagAt(s, j)) &&
            TagSpans(s, i)[0].1 == NextChar(s, a + 5, '>').value + 1
    decreases |s| - i
  {
    assert i < |s|;
    if TagAt(s, i) {
      var close := NextChar(s, i + 5, '>').value;
      assert TagSpans(s, i)[0] == (i, close + 1);
    } else {
      assert TagSpans(s, i) == TagSpans(s, i + 1);
      TagSpansHead(s, i + 1);
    }
  }

  /** After its first span the scan continues from the end of that span. */
  lemma {:induction false} TagSpansTail(s: String, i: nat)
    requires TagSpans(s, i) != []
    ensures TagSpans(s, i)[1..] == TagSpans(s, TagSpans(s, i)[0].1)
    decreases |s| - i
  {
    assert i < |s|;
    if TagAt(s, i) {
      var close := NextChar(s, i + 5, '>').value;
      var rest := TagSpans(s, close + 1);
      assert TagSpans(s, i) == [(i, close + 1)] + rest;
      assert ([(i, close + 1)] + rest)[1..] == rest;
    } else {
      assert TagSpans(s, i) == TagSpans(s, i + 1);
      TagSpansTail(s, i + 1);
    }
  }

  /** The scan is leftmost-first: with no match left it finds nothing, otherwise its first
      span is the first match at or after `i`, running to the first `>` after `<path`,
      and the rest is the scan resumed after that `>`. */
  lemma TagSpansLeftmost(s: String, i: nat)
    ensures TagSpans(s, i) == [] <==> forall j :: i <= j < |s| ==> !TagAt(s, j)
    ensures TagSpans(s, i) != [] ==>
              var a := TagSpans(s, i)[0].0;
              i <= a && TagAt(s, a) && (forall j :: i <= j < a ==> !TagAt(s, j)) &&
              TagSpans(s, i)[0].1 == NextChar(s, a + 5, '>').value + 1 &&
              TagSpans(s, i)[1..] == TagSpans(s, TagSpans(s, i)[0].1)
  {
    TagSpansEmpty(s, i);
    if TagSpans(s, i) != [] {
      TagSpansHead(s, i);
      TagSpansTail(s, i);
    }
  }

  /** A match at `i` spans a path tag: `<path`, no `>`, then the closing `>`. */
  lemma MatchIsPathTag(s: String, i: nat)
    requires TagAt(s, i)
    ensures var close := NextChar(s, i + 5, '>').value;
            i < close + 1 <= |s| && IsPathTag(s[i..close + 1])
  {
    var close := NextChar(s, i + 5, '>').value;
    var t := s[i..close + 1];
    assert t[..5] == s[i..i + 5];
    assert forall m :: 5 <= m < |t| - 1 ==> t[m] == s[i + m];
  }

  /** Every span of `spans` starts at or after `lo` and is a path tag of `s`. */
  predicate AllTags(s: String, lo: nat, spans: seq<(nat, nat)>) {
    forall k :: 0 <= k < |spans| ==>
      lo <= spans[k].0 < spans[k].1 <= |s| && IsPathTag(s[spans[k].0..spans[k].1])
  }

  /** Each span ends at or before the next one starts. */
  predicate InOrder(spans: seq<(nat, nat)>) {
    forall k :: 0 <= k < |spans| - 1 ==> spans[k].1 <= spans[k + 1].0
  }

  lemma ConsTags(s: String, lo: nat, x: (nat, nat), rest: seq<(nat, nat)>)
    requires lo <= x.0 < x.1 <= |s| && IsPathTag(s[x.0..x.1]) && AllTags(s, x.1, rest)
    ensures AllTags(s, lo, [x] + rest)
  {
    var r := [x] + rest;
    forall k | 0 <= k < |r|
      ensures lo <= r[k].0 < r[k].1 <= |s| && IsPathTag(s[r[k].0..r[k].1])
    {
      if k > 0 {
        assert r[k] == rest[k - 1];
      }
    }
  }

  lemma ConsInOrder(x: (nat, nat), rest: seq<(nat, nat)>)
    requires InOrder(rest) && (rest != [] ==> x.1 <= rest[0].0)
    ensures InOrder([x] + rest)
  {
    var r := [x] + rest;
    forall k | 0 <= k < |r| - 1
      ensures r[k].1 <= r[k + 1].0
    {
      if k > 0 {
        assert r[k] == rest[k - 1] && r[k + 1] == rest[k];
      }
    }
  }

  /** Every span found is a path tag of `s` at or after `i`. */
  lemma {:induction false} TagSpansAreTags(s: String, i: nat)
    ensures AllTags(s, i, TagSpans(s, i))
    decreases |s| - i
  {
    if i < |s| {
      if TagAt(s, i) {
        var close := NextChar(s, i + 5, '>').value;
        var rest := TagSpans(s, close + 1);
        assert TagSpans(s, i) == [(i, close + 1)] + rest;
        MatchIsPathTag(s, i);
        TagSpansAreTags(s, close + 1);
        ConsTags(s, i, (i, close + 1), rest);
      } else {
        assert TagSpans(s, i) == TagSpans(s, i + 1);
        TagSpansAreTags(s, i + 1);
      }
    }
  }

  /** The first span found scanning from `i` starts at or after `i`. */
  lemma {:induction false} TagSpansStart(s: String, i: nat)
    requires TagSpans(s, i) != []
    ensures i <= TagSpans(s, i)[0].0
    decreases |s| - i
  {
    if !TagAt(s, i) {
      assert TagSpans(s, i) == TagSpans(s, i + 1);
      TagSpansStart(s, i + 1);
    }
  }

  /** One match step of the scan: the span up to the closing `>`, then the rest. */
  lemma MatchStep(s: String, i: nat) returns (close: nat)
    requires i < |s| && TagAt(s, i)
    ensures i < close < |s|
    ensures TagSpans(s, i) == [(i, close + 1)] + TagSpans(s, close + 1)
  {
    close := NextChar(s, i + 5, '>').value;
  }

  /** The spans come in document order without overlapping. */
  lemma {:induction false} TagSpansOrdered(s: String, i: nat)
    ensures InOrder(TagSpans(s, i))
    decreases |s| - i
  {
    if i < |s| {
      if TagAt(s, i) {
        var close := MatchStep(s, i);
        var rest := TagSpans(s, close + 1);
        TagSpansOrdered(s, close + 1);
        if rest != [] {
          TagSpansStart(s, close + 1);
        }
        ConsInOrder((i, close + 1), rest);
      } else {
        assert TagSpans(s, i) == TagSpans(s, i + 1);
        TagSpansOrdered(s, i + 1);
      }
    }
  }

  /** Every span found is a path tag of `s`, and the spans come in document order without
      overlapping. */
  lemma TagSpansInOrder(s: String, i: nat)
    ensures forall k :: 0 <= k < |TagSpans(s, i)| ==>
              var span := TagSpans(s, i)[k];
              i <= span.0 < span.1 <= |s| && IsPathTag(s[span.0..span.1])
    ensures forall k :: 0 <= k < |TagSpans(s, i)| - 1 ==> TagSpans(s, i)[k].1 <= TagSpans(s, i)[k + 1].0
  {
    TagSpansAreTags(s, i);
    TagSpansOrdered(s, i);
  }

  /** The text of each span. */
  function Texts(s: String, spans: seq<(nat, nat)>): (r: seq<String>)
    requires forall k :: 0 <= k < |spans| ==> spans[k].0 <= spans[k].1 <= |s|
    ensures |r| == |spans|
    ensures forall k :: 0 <= k < |spans| ==> r[k] == s[spans[k].0..spans[k].1]
  {
    if spans == [] then [] else [s[spans[0].0..spans[0].1]] + Texts(s, spans[1..])
  }

  /** `path_elements`: every path tag of the document, in document order. */
  function PathElements(svg: String): (r: seq<String>)
    ensures forall k :: 0 <= k < |r| ==> IsPathTag(r[k])
  {
    TagSpansInOrder(svg, 0);
    Texts(svg, TagSpans(svg, 0))
  }

  // ---------------------------------------------------------------------------
  // `re.search(r'd="([^"]+)"', path)`

  const DOpen: String := "d=\""

  /** The pattern matches at `i`: `d="`, at least one character other than `"`, then `"`. */
  predicate DAt(t: String, i: nat) {
    At(t, i, DOpen) && NextChar(t, i + 3, '"').Some? && NextChar(t, i + 3, '"').value > i + 3
  }

  /** The position of the leftmost match at or after `i`, if any. */
  function DPos(t: String, i: nat): (r: Option<nat>)
    ensures r.Some? ==> i <= r.value && DAt(t, r.value) && forall j :: i <= j < r.value ==> !DAt(t, j)
    ensures r.None? ==> forall j :: i <= j < |t| ==> !DAt(t, j)
    decreases |t| - i
  {
    if i >= |t| then None
    else if DAt(t, i) then Some(i)
    else DPos(t, i + 1)
  }

  /** The `d` attribute of a tag: the group of the leftmost match, if there is one. */
  function DAttribute(t: String): Option<String> {
    match DPos(t, 0)
    case None => None
    case Some(a) => Some(t[a + 3..NextChar(t, a + 3, '"').value])
  }

  /** What the search finds is a nonempty run without `"` that the tag holds as
      `d="..."`, at the leftmost match. */
  lemma DAttributeShape(t: String)
    ensures DAttribute(t).Some? ==>
              var v := DAttribute(t).value;
              |v| > 0 && (forall m :: 0 <= m < |v| ==> v[m] != '"') && At(t, DPos(t, 0).value, DOpen + v + ['"'])
  {
    if DPos(t, 0).Some? {
      var a := DPos(t, 0).value;
      var close := NextChar(t, a + 3, '"').value;
      var v := t[a + 3..close];
      assert forall m :: 0 <= m < |v| ==> v[m] == t[a + 3 + m];
      assert t[a..close + 1] == t[a..a + 3] + v + [t[close]];
    }
  }

  /** `path_data` for the tags `tags`: the `d` value of each tag that has one, in order. */
  function PathData(tags: seq<String>): seq<String> {
    if tags == [] then []
    else
      var rest := PathData(tags[..|tags| - 1]);
      match DAttribute(tags[|tags| - 1])
      case None => rest
      case Some(d) => rest + [d]
  }

  /** Some tag of `tags` has `v` as its `d` attribute. */
  predicate HasDValue(tags: seq<String>, v: String) {
    exists k :: 0 <= k < |tags| && DAttribute(tags[k]) == Some(v)
  }

  /** One more tag adds at most its own `d` value. */
  lemma HasDValueSnoc(init: seq<String>, x: String, v: String)
    ensures HasDValue(init + [x], v) <==> HasDValue(init, v) || DAttribute(x) == Some(v)
  {
    var tags := init + [x];
    if HasDValue(init, v) {
      var k :| 0 <= k < |init| && DAttribute(init[k]) == Some(v);
      assert tags[k] == init[k];
    }
    if DAttribute(x) == Some(v) {
      assert tags[|init|] == x;
    }
    if HasDValue(tags, v) {
      var k :| 0 <= k < |tags| && DAttribute(tags[k]) == Some(v);
      if k < |init| {
        assert tags[k] == init[k];
      }
    }
  }

  /** There is at most one value per tag. */
  lemma {:induction false} PathDataLength(tags: seq<String>)
    ensures |PathData(tags)| <= |tags|
  {
    if tags != [] {
      PathDataLength(tags[..|tags| - 1]);
    }
  }

  /** A value is in `path_data` exactly when some tag has it as its `d` attribute. */
  lemma {:induction false} PathDataMembers(tags: seq<String>)
    ensures forall v :: v in PathData(tags) <==> HasDValue(tags, v)
  {
    if tags != [] {
      var init, x := tags[..|tags| - 1], tags[|tags| - 1];
      assert tags == init + [x];
      PathDataMembers(init);
      forall v ensures v in PathData(tags) <==> HasDValue(tags, v) {
        HasDValueSnoc(init, x, v);
      }
    }
  }

  /** A value is in `path_data` exactly when some tag has it as its `d` attribute, and there
      is at most one value per tag. */
  lemma PathDataFromTags(tags: seq<String>)
    ensures |PathData(tags)| <= |tags|
    ensures forall v :: v in PathData(tags) <==> exists k :: 0 <= k < |tags| && DAttribute(tags[k]) == Some(v)
  {
    PathDataLength(tags);
    PathDataMembers(tags);
  }

  /** The first loop: keep the `d` value of each tag that has one. */
  method ExtractPathData(pathElements: seq<String>) returns (pathData: seq<String>)
    ensures pathData == PathData(pathElements)
  {
    pathData := [];
    for k := 0 to |pathElements|
      invariant pathData == PathData(pathElements[..k])
    {
      assert pathElements[..k + 1][..k] == pathElements[..k];
      var dMatch := DAttribute(pathElements[k]);
      if dMatch.Some? {
        pathData := pathData + [dMatch.value];
      }
    }
    assert pathElements[..|pathElements|] == pathElements;
  }

  // ---------------------------------------------------------------------------
  // `str.split(sep)`

  /** Python's `s.split(c)`: the pieces between the occurrences of `c`, empty ones
      included; a string without `c` is one piece. */
  function Split(s: String, c: char): (r: seq<String>)
    ensures |r| >= 1
    decreases |s|
  {
    match NextChar(s, 0, c)
    case None => [s]
    case Some(k) => [s[..k]] + Split(s[k + 1..], c)
  }

  /** The pieces joined back with `c` between them. */
  function Join(pieces: seq<String>, c: char): String
    requires |pieces| >= 1
  {
    if |pieces| == 1 then pieces[0] else pieces[0] + [c] + Join(pieces[1..], c)
  }

  /** Joining the pieces with the separator gives the string back. */
  lemma {:induction false} SplitJoinBack(s: String, c: char)
    ensures Join(Split(s, c), c) == s
    decreases |s|
  {
    match NextChar(s, 0, c)
    case None =>
    case Some(k) =>
      var rest := Split(s[k + 1..], c);
      SplitJoinBack(s[k + 1..], c);
      var pieces := Split(s, c);
      assert pieces == [s[..k]] + rest;
      assert pieces[0] == s[..k] && pieces[1..] == rest;
      assert Join(pieces, c) == s[..k] + [c] + Join(rest, c);
      assert s == s[..k] + [c] + s[k + 1..];
  }

  /** No piece holds the separator. */
  lemma {:induction false} SplitPiecesClean(s: String, c: char)
    ensures forall k, m :: 0 <= k < |Split(s, c)| && 0 <= m < |Split(s, c)[k]| ==> Split(s, c)[k][m] != c
    decreases |s|
  {
    match NextChar(s, 0, c)
    case None =>
    case Some(k) =>
      SplitPiecesClean(s[k + 1..], c);
      var rest := Split(s[k + 1..], c);
      forall j, m | 0 <= j < |Split(s, c)| && 0 <= m < |Split(s, c)[j]|
        ensures Split(s, c)[j][m] != c
      {
        if j > 0 {
          assert Split(s, c)[j] == rest[j - 1];
        }
      }
  }

  /** Splitting loses nothing: no piece holds the separator, and joining the pieces with it
      gives the string back. */
  lemma SplitJoin(s: String, c: char)
    ensures Join(Split(s, c), c) == s
    ensures forall k, m :: 0 <= k < |Split(s, c)| && 0 <= m < |Split(s, c)[k]| ==> Split(s, c)[k][m] != c
  {
    SplitJoinBack(s, c);
    SplitPiecesClean(s, c);
  }

  // ---------------------------------------------------------------------------
  // The coordinate loop

  datatype Error = IndexError | ValueError

  datatype Result<T> = Ok(value: T) | Err(error: Error)

  /** `segment[1:]`: the segment without its command letter; empty stays empty. */
  function Tail(segment: String): String {
    if segment == [] then [] else segment[1..]
  }

  /** One segment read as `(float(coords[0]), float(coords[1]))` with
      `coords = segment[1:].split(",")`, in Python's order: the first field
      is converted before the second is indexed, so a first field that is
      not a number is a `ValueError` even when there is no second field;
      then a missing second field is an `IndexError`, and a second field
      that is not a number a `ValueError`. */
  function SegmentPoint(segment: String, num: String -> Option<real>): (r: Result<(real, real)>)
    ensures var coords := Split(Tail(segment), ',');
      && (num(coords[0]).None? ==> r == Err(ValueError))
      && (num(coords[0]).Some? && |coords| < 2 ==> r == Err(IndexError))
      && (num(coords[0]).Some? && |coords| >= 2 && num(coords[1]).None? ==> r == Err(ValueError))
    ensures r.Ok? <==> |Split(Tail(segment), ',')| >= 2 &&
                       num(Split(Tail(segment), ',')[0]).Some? && num(Split(Tail(segment), ',')[1]).Some?
    ensures r.Ok? ==> r.value == (num(Split(Tail(segment), ',')[0]).value, num(Split(Tail(segment), ',')[1]).value)
  {
    var coords := Split(Tail(segment), ',');
    match num(coords[0])
    case None => Err(ValueError)
    case Some(x) =>
      if |coords| < 2 then Err(IndexError)
      else match num(coords[1])
        case None => Err(ValueError)
        case Some(y) => Ok((x, y))
  }

  /** `d.split(" ")[:-1]`: the segments of a path, the last one dropped. */
  function Segments(d: String): (r: seq<String>)
    ensures |r| == |Split(d, ' ')| - 1
  {
    var pieces := Split(d, ' ');
    pieces[..|pieces| - 1]
  }

  /** The points of the first `n` segments, or the first error among them. */
  function PathPoints(segments: seq<String>, num: String -> Option<real>): Result<seq<(real, real)>> {
    if segments == [] then Ok([])
    else match PathPoints(segments[..|segments| - 1], num)
      case Err(e) => Err(e)
      case Ok(pts) =>
        match SegmentPoint(segments[|segments| - 1], num)
        case Err(e) => Err(e)
        case Ok(p) => Ok(pts + [p])
  }

  /** The coordinate list of one `d` value, or the first error. */
  function PathOf(d: String, num: String -> Option<real>): Result<seq<(real, real)>> {
    PathPoints(Segments(d), num)
  }

  /** The coordinate list of every path, or the first error. */
  function AllPoints(pathData: seq<String>, num: String -> Option<real>): Result<seq<seq<(real, real)>>> {
    if pathData == [] then Ok([])
    else match AllPoints(pathData[..|pathData| - 1], num)
      case Err(e) => Err(e)
      case Ok(lists) =>
        match PathOf(pathData[|pathData| - 1], num)
        case Err(e) => Err(e)
        case Ok(pts) => Ok(lists + [pts])
  }

  /** A path reads without error exactly when each of its segments does, and then it has
      one point per segment, each read from its own segment. */
  lemma PathPointsSpec(segments: seq<String>, num: String -> Option<real>)
    ensures PathPoints(segments, num).Ok? <==> forall k :: 0 <= k < |segments| ==> SegmentPoint(segments[k], num).Ok?
    ensures PathPoints(segments, num).Ok? ==>
              |PathPoints(segments, num).value| == |segments| &&
              forall k :: 0 <= k < |segments| ==> PathPoints(segments, num).value[k] == SegmentPoint(segments[k], num).value
  {
    if PathPoints(segments, num).Ok? {
      PathPointsValues(segments, num);
    } else if forall k :: 0 <= k < |segments| ==> SegmentPoint(segments[k], num).Ok? {
      PathPointsRead(segments, num);
    }
  }

  /** A path whose every segment reads, reads. */
  lemma {:induction false} PathPointsRead(segments: seq<String>, num: String -> Option<real>)
    requires forall k :: 0 <= k < |segments| ==> SegmentPoint(segments[k], num).Ok?
    ensures PathPoints(segments, num).Ok?
  {
    if segments != [] {
      var init := segments[..|segments| - 1];
      forall k | 0 <= k < |init|
        ensures SegmentPoint(init[k], num).Ok?
      {
        assert init[k] == segments[k];
      }
      PathPointsRead(init, num);
      assert SegmentPoint(segments[|segments| - 1], num).Ok?;
    }
  }

  /** A path that reads has one point per segment, each read from its own segment. */
  lemma {:induction false} PathPointsValues(segments: seq<String>, num: String -> Option<real>)
    requires PathPoints(segments, num).Ok?
    ensures |PathPoints(segments, num).value| == |segments|
    ensures forall k :: 0 <= k < |segments| ==>
      SegmentPoint(segments[k], num).Ok? && PathPoints(segments, num).value[k] == SegmentPoint(segments[k], num).value
  {
    if segments != [] {
      var init := segments[..|segments| - 1];
      var front, tail := PathPointsSnoc(segments, num);
      PathPointsValues(init, num);
      forall k | 0 <= k < |segments|
        ensures SegmentPoint(segments[k], num).Ok? && PathPoints(segments, num).value[k] == SegmentPoint(segments[k], num).value
      {
        if k < |init| {
          assert init[k] == segments[k];
        }
      }
    }
  }

  /** A path that reads is the points of its front segments, which read,
      followed by the point of its last segment, which reads. */
  lemma PathPointsSnoc(segments: seq<String>, num: String -> Option<real>) returns (front: seq<(real, real)>, tail: (real, real))
    requires segments != [] && PathPoints(segments, num).Ok?
    ensures PathPoints(segments[..|segments| - 1], num) == Ok(front)
    ensures SegmentPoint(segments[|segments| - 1], num) == Ok(tail)
    ensures PathPoints(segments, num).value == front + [tail]
  {
    front := PathPoints(segments[..|segments| - 1], num).value;
    tail := SegmentPoint(segments[|segments| - 1], num).value;
  }

  /** Every path of `pathData` reads without error. */
  predicate PathsRead(pathData: seq<String>, num: String -> Option<real>) {
    forall k :: 0 <= k < |pathData| ==> PathOf(pathData[k], num).Ok?
  }

  /** `lists` holds, in order, the coordinate list read from each path. */
  predicate ListsRead(lists: seq<seq<(real, real)>>, pathData: seq<String>, num: String -> Option<real>)
    requires PathsRead(pathData, num)
  {
    |lists| == |pathData| && forall k :: 0 <= k < |pathData| ==> lists[k] == PathOf(pathData[k], num).value
  }

  lemma PathsReadSnoc(init: seq<String>, x: String, num: String -> Option<real>)
    ensures PathsRead(init + [x], num) <==> PathsRead(init, num) && PathOf(x, num).Ok?
  {
    var s := init + [x];
    assert forall k :: 0 <= k < |init| ==> s[k] == init[k];
    assert s[|init|] == x;
  }

  lemma ListsReadSnoc(lists: seq<seq<(real, real)>>, init: seq<String>, x: String, pts: seq<(real, real)>,
                      num: String -> Option<real>)
    requires PathsRead(init, num) && ListsRead(lists, init, num) && PathOf(x, num) == Ok(pts)
    ensures PathsRead(init + [x], num) && ListsRead(lists + [pts], init + [x], num)
  {
    PathsReadSnoc(init, x, num);
    var s, l := init + [x], lists + [pts];
    forall k | 0 <= k < |s|
      ensures l[k] == PathOf(s[k], num).value
    {
      if k < |init| {
        assert s[k] == init[k] && l[k] == lists[k];
      }
    }
  }

  /** The document reads without error exactly when each path does, and then there is one
      coordinate list per `d` value, each read from its own path. */
  lemma {:induction false} AllPointsSpec(pathData: seq<String>, num: String -> Option<real>)
    ensures AllPoints(pathData, num).Ok? <==> PathsRead(pathData, num)
    ensures AllPoints(pathData, num).Ok? ==> ListsRead(AllPoints(pathData, num).value, pathData, num)
  {
    if pathData != [] {
      var init, x := pathData[..|pathData| - 1], pathData[|pathData| - 1];
      assert pathData == init + [x];
      AllPointsSpec(init, num);
      PathsReadSnoc(init, x, num);
      if AllPoints(init, num).Ok? && PathOf(x, num).Ok? {
        ListsReadSnoc(AllPoints(init, num).value, init, x, PathOf(x, num).value, num);
      }
    }
  }

  /** Each coordinate list has one point per segment of its path, the last segment
      excepted. */
  lemma AllPointsLengths(pathData: seq<String>, num: String -> Option<real>)
    requires AllPoints(pathData, num).Ok?
    ensures |AllPoints(pathData, num).value| == |pathData|
    ensures forall k :: 0 <= k < |pathData| ==> |AllPoints(pathData, num).value[k]| == |Split(pathData[k], ' ')| - 1
  {
    AllPointsSpec(pathData, num);
    forall k | 0 <= k < |pathData|
      ensures |AllPoints(pathData, num).value[k]| == |Split(pathData[k], ' ')| - 1
    {
      PathPointsSpec(Segments(pathData[k]), num);
      assert AllPoints(pathData, num).value[k] == PathPoints(Segments(pathData[k]), num).value;
    }
  }

  /** The inner loop: one point per segment, stopping at the first segment that fails. */
  method ReadPath(d: String, num: String -> Option<real>) returns (r: Result<seq<(real, real)>>)
    ensures r == PathOf(d, num)
  {
    var dSplit := Segments(d);
    var triangle := [];
    for k := 0 to |dSplit|
      invariant PathPoints(dSplit[..k], num) == Ok(triangle)
    {
      assert dSplit[..k + 1][..k] == dSplit[..k];
      var point := SegmentPoint(dSplit[k], num);
      if point.Err? {
        PathPointsStopped(dSplit, num, k + 1);
        return Err(point.error);
      }
      triangle := triangle + [point.value];
    }
    assert dSplit[..|dSplit|] == dSplit;
    return Ok(triangle);
  }

  /** Once a prefix of the segments fails, the whole path fails with the same error. */
  lemma {:induction false} PathPointsStopped(segments: seq<String>, num: String -> Option<real>, k: nat)
    requires k <= |segments| && PathPoints(segments[..k], num).Err?
    ensures PathPoints(segments, num) == PathPoints(segments[..k], num)
    decreases |segments| - k
  {
    if k < |segments| {
      assert segments[..k + 1][..k] == segments[..k];
      PathPointsStopped(segments, num, k + 1);
    } else {
      assert segments[..k] == segments;
    }
  }

  /** Once a prefix of the paths fails, the whole document fails with the same error. */
  lemma {:induction false} AllPointsStopped(pathData: seq<String>, num: String -> Option<real>, k: nat)
    requires k <= |pathData| && AllPoints(pathData[..k], num).Err?
    ensures AllPoints(pathData, num) == AllPoints(pathData[..k], num)
    decreases |pathData| - k
  {
    if k < |pathData| {
      assert pathData[..k + 1][..k] == pathData[..k];
      AllPointsStopped(pathData, num, k + 1);
    } else {
      assert pathData[..k] == pathData;
    }
  }

  /** The outer loop: one coordinate list per `d` value, stopping at the first failure. */
  method ReadCoordinates(pathData: seq<String>, num: String -> Option<real>)
    returns (r: Result<seq<seq<(real, real)>>>)
    ensures r == AllPoints(pathData, num)
  {
    var coordinates := [];
    for k := 0 to |pathData|
      invariant AllPoints(pathData[..k], num) == Ok(coordinates)
    {
      assert pathData[..k + 1][..k] == pathData[..k];
      var triangle := ReadPath(pathData[k], num);
      if triangle.Err? {
        AllPointsStopped(pathData, num, k + 1);
        return Err(triangle.error);
      }
      coordinates := coordinates + [triangle.value];
    }
    assert pathData[..|pathData|] == pathData;
    return Ok(coordinates);
  }

  /** The whole script on a document: the `d` values of its path tags and their points. */
  method ReadSvg(svg: String, num: String -> Option<real>)
    returns (pathData: seq<String>, coordinates: Result<seq<seq<(real, real)>>>)
    ensures pathData == PathData(PathElements(svg))
    ensures coordinates == AllPoints(pathData, num)
  {
    var pathElements := PathElements(svg);
    pathData := ExtractPathData(pathElements);
    coordinates := ReadCoordinates(pathData, num);
  }
}
