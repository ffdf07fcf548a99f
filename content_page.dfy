/**
 * The content page: loading an item by id, the wiki-link tokenizer that splits its
 * text on `[[linkText]]` markers, and the star-shaped graph of its related items.
 *
 * The tokenizer follows `text.split(/(\[\[.*?\]\])/g)` followed by a per-part
 * `part.match(/\[\[(.*?)\]\]/)`: a match starts at the leftmost `[[` from which a
 * `]]` can be reached without crossing a line terminator (`.` excludes those), and
 * it ends at the first such `]]` (the quantifier is lazy); the split keeps the
 * captured matches between the text pieces.
 */
module ContentPage {
  import opened Wrappers
  import opened Graph
  import opened GraphHelpers

  /** The characters a regular-expression `.` does not match. */
  predicate IsLineTerminator(c: char)
  {
    c == '\n' || c == '\r' || c == '\U{2028}' || c == '\U{2029}'
  }

  /** `]]` starts at `j`. */
  predicate ClosesAt(s: string, j: nat)
  {
    j + 1 < |s| && s[j] == ']' && s[j + 1] == ']'
  }

  /** Where the lazy `.*?` scanning from `q` meets the first `]]`, unless a line terminator comes first. */
  function CloseFrom(s: string, q: nat): (r: Option<nat>)
    requires q <= |s|
    decreases |s| - q
    ensures r.Some? ==> q <= r.value && ClosesAt(s, r.value)
    ensures r.Some? ==> forall j :: q <= j < r.value ==> !IsLineTerminator(s[j]) && !ClosesAt(s, j)
    ensures r.None? ==> forall j :: q <= j < |s| && ClosesAt(s, j) ==> exists t :: q <= t < j && IsLineTerminator(s[t])
  {
    if q + 1 >= |s| then None
    else if s[q] == ']' && s[q + 1] == ']' then Some(q)
    else if IsLineTerminator(s[q]) then None
    else CloseFrom(s, q + 1)
  }

  /** The end of the match `\[\[.*?\]\]` starting exactly at `p`, if there is one. */
  function MatchAt(s: string, p: nat): (r: Option<nat>)
    requires p <= |s|
    ensures r.Some? ==> p + 4 <= r.value <= |s| && s[p] == '[' && s[p + 1] == '[' && ClosesAt(s, r.value - 2)
    ensures r.Some? ==> forall j :: p + 2 <= j < r.value - 2 ==> !IsLineTerminator(s[j]) && !ClosesAt(s, j)
  {
    if p + 1 < |s| && s[p] == '[' && s[p + 1] == '[' then
      match CloseFrom(s, p + 2)
      case Some(q) => Some(q + 2)
      case None => None
    else None
  }

  /** Every `[[` from which a `]]` is reached without crossing a line terminator starts a match. */
  lemma MatchAtComplete(s: string, p: nat, c: nat)
    requires p + 1 < |s| && s[p] == '[' && s[p + 1] == '['
    requires p + 2 <= c && ClosesAt(s, c)
    requires forall t :: p + 2 <= t < c ==> !IsLineTerminator(s[t])
    ensures MatchAt(s, p).Some? && MatchAt(s, p).value <= c + 2
  {
  }

  datatype Match = Match(start: nat, end: nat)

  /** The leftmost match starting at or after `pos`. */
  function FindFrom(s: string, pos: nat): (r: Option<Match>)
    requires pos <= |s|
    decreases |s| - pos
    ensures r.Some? ==> pos <= r.value.start < |s| && MatchAt(s, r.value.start) == Some(r.value.end)
    ensures r.Some? ==> forall j :: pos <= j < r.value.start ==> MatchAt(s, j).None?
    ensures r.None? ==> forall j :: pos <= j <= |s| ==> MatchAt(s, j).None?
  {
    if pos == |s| then None
    else
      match MatchAt(s, pos)
      case Some(e) => Some(Match(pos, e))
      case None => FindFrom(s, pos + 1)
  }

  /** `split` with a capturing group: text pieces with the matches kept between them. */
  function SplitFrom(s: string, pos: nat): (parts: seq<string>)
    requires pos <= |s|
    decreases |s| - pos
    ensures |parts| % 2 == 1
  {
    match FindFrom(s, pos)
    case None => [s[pos..]]
    case Some(m) => [s[pos..m.start], s[m.start..m.end]] + SplitFrom(s, m.end)
  }

  function Split(s: string): seq<string>
  {
    SplitFrom(s, 0)
  }

  datatype Segment = Text(text: string) | WikiLink(linkText: string)

  /** A part becomes a link when it contains a match; the link text is the text between its brackets. */
  function ParsePart(part: string): (seg: Segment)
    ensures seg.Text? <==> FindFrom(part, 0).None?
    ensures seg.Text? ==> seg.text == part
    ensures seg.WikiLink? ==> |seg.linkText| + 4 <= |part|
  {
    match FindFrom(part, 0)
    case None => Text(part)
    case Some(m) => WikiLink(part[m.start + 2..m.end - 2])
  }

  /** Missing or empty text renders nothing; otherwise every part of the split is parsed in order. */
  function ParseContent(text: Option<string>): (segs: seq<Segment>)
    ensures text.None? || text.value == "" ==> segs == []
  {
    if text.None? || text.value == "" then []
    else
      var parts := Split(text.value);
      seq(|parts|, i requires 0 <= i < |parts| => ParsePart(parts[i]))
  }

  /** The route a wiki link, or a click on a related node, leads to. */
  function Href(linkText: string): (r: string)
    ensures |r| == 9 + |linkText| && r[..9] == "/content/" && r[9..] == linkText
  {
    "/content/" + linkText
  }

  const BACK_ROUTE: string := "/"

  // ---- reading the segments back ----

  function Concat(parts: seq<string>): string
    decreases |parts|
  {
    if parts == [] then "" else parts[0] + Concat(parts[1..])
  }

  function Unparse(seg: Segment): string
  {
    match seg
    case Text(t) => t
    case WikiLink(l) => "[[" + l + "]]"
  }

  function Flatten(segs: seq<Segment>): string
    decreases |segs|
  {
    if segs == [] then "" else Unparse(segs[0]) + Flatten(segs[1..])
  }

  /** Link text can be written inside `[[...]]`: no line terminator and no `]]`. */
  predicate CleanLinkText(linkText: string)
  {
    (forall k :: 0 <= k < |linkText| ==> !IsLineTerminator(linkText[k]))
    && (forall k :: 0 <= k < |linkText| ==> !ClosesAt(linkText, k))
  }

  // ---- substrings ----

  lemma SliceOfSlice(s: string, a: nat, b: nat, i: nat, j: nat)
    requires a <= b <= |s| && i <= j <= b - a
    ensures s[a..b][i..j] == s[a + i..a + j]
  {
    var u := s[a..b][i..j];
    var v := s[a + i..a + j];
    forall k | 0 <= k < |u|
      ensures u[k] == v[k]
    {
    }
  }

  lemma SliceThree(s: string, i: nat, j: nat, k: nat)
    requires i <= j <= k <= |s|
    ensures s[i..] == s[i..j] + s[j..k] + s[k..]
  {
  }

  /** A close found inside a substring is the close found in the whole string. */
  lemma {:induction false} CloseLift(s: string, a: nat, b: nat, j: nat)
    requires a <= b <= |s| && j <= b - a
    ensures CloseFrom(s[a..b], j).Some? ==> CloseFrom(s, a + j) == Some(a + CloseFrom(s[a..b], j).value)
    decreases b - a - j
  {
    var t := s[a..b];
    if j + 1 < |t| && !(t[j] == ']' && t[j + 1] == ']') && !IsLineTerminator(t[j]) {
      assert t[j] == s[a + j] && t[j + 1] == s[a + j + 1];
      CloseLift(s, a, b, j + 1);
    } else if j + 1 < |t| {
      assert t[j] == s[a + j] && t[j + 1] == s[a + j + 1];
    }
  }

  /** A close of the whole string that lies inside a substring is the substring's close. */
  lemma {:induction false} CloseRestrict(s: string, a: nat, b: nat, j: nat, q: nat)
    requires a <= b <= |s| && j <= b - a
    requires CloseFrom(s, a + j) == Some(q) && q + 2 <= b
    ensures a <= q && CloseFrom(s[a..b], j) == Some(q - a)
    decreases b - a - j
  {
    var t := s[a..b];
    assert t[j] == s[a + j] && t[j + 1] == s[a + j + 1];
    if q != a + j {
      CloseRestrict(s, a, b, j + 1, q);
    }
  }

  /** A match found inside a substring is a match of the whole string at the same place. */
  lemma MatchLift(s: string, a: nat, b: nat, j: nat)
    requires a <= b <= |s| && j <= b - a
    ensures MatchAt(s[a..b], j).Some? ==> MatchAt(s, a + j) == Some(a + MatchAt(s[a..b], j).value)
  {
    var t := s[a..b];
    if j + 1 < |t| && t[j] == '[' && t[j + 1] == '[' {
      assert t[j] == s[a + j] && t[j + 1] == s[a + j + 1];
      CloseLift(s, a, b, j + 2);
    }
  }

  /** A piece of the text in which no match of the whole text starts contains no match of its own. */
  lemma NoMatchInPiece(s: string, a: nat, b: nat)
    requires a <= b <= |s|
    requires forall j :: a <= j < b ==> MatchAt(s, j).None?
    ensures FindFrom(s[a..b], 0).None?
  {
    var t := s[a..b];
    forall j | 0 <= j <= |t|
      ensures MatchAt(t, j).None?
    {
      MatchLift(s, a, b, j);
    }
  }

  /** A match, taken on its own, parses as a link to the text between its brackets. */
  lemma MatchPieceParses(s: string, p: nat, e: nat)
    requires p <= |s| && MatchAt(s, p) == Some(e)
    ensures ParsePart(s[p..e]) == WikiLink(s[p + 2..e - 2])
  {
    var t := s[p..e];
    assert |t| == e - p;
    assert t[0] == s[p] && t[1] == s[p + 1];
    CloseRestrict(s, p, e, 2, e - 2);
    assert MatchAt(t, 0) == Some(e - p);
    assert FindFrom(t, 0) == Some(Match(0, e - p));
    SliceOfSlice(s, p, e, 2, e - p - 2);
  }

  lemma MatchPieceShape(s: string, p: nat, e: nat)
    requires p <= |s| && MatchAt(s, p) == Some(e)
    ensures s[p..e] == "[[" + s[p + 2..e - 2] + "]]"
    ensures CleanLinkText(s[p + 2..e - 2])
  {
    var t := s[p..e];
    var linkText := s[p + 2..e - 2];
    assert s[p..e] == s[p..p + 2] + linkText + s[e - 2..e];
    assert s[p..p + 2] == "[[" && s[e - 2..e] == "]]";
    forall k | 0 <= k < |linkText|
      ensures !IsLineTerminator(linkText[k]) && !ClosesAt(linkText, k)
    {
      assert linkText[k] == s[p + 2 + k];
      if k + 1 < |linkText| {
        assert linkText[k + 1] == s[p + 3 + k];
      }
    }
  }

  // ---- the split ----

  /** A text part: it contains no match. */
  predicate PlainPart(part: string)
  {
    FindFrom(part, 0).None?
  }

  /** A link part: it is `[[linkText]]` for the clean link text it parses to. */
  predicate LinkPart(part: string)
  {
    var seg := ParsePart(part);
    seg.WikiLink? && part == "[[" + seg.linkText + "]]" && CleanLinkText(seg.linkText)
  }

  /** Text, link, text, ..., ending with text, for the given tests of a text part and of a link part. */
  predicate AlternatesBy(parts: seq<string>, plain: string -> bool, link: string -> bool)
    decreases |parts|
  {
    && |parts| > 0 && plain(parts[0])
    && (|parts| == 1 || (|parts| > 2 && link(parts[1]) && AlternatesBy(parts[2..], plain, link)))
  }

  predicate Alternates(parts: seq<string>)
  {
    AlternatesBy(parts, PlainPart, LinkPart)
  }

  lemma ConcatCons(a: string, b: string, rest: seq<string>)
    ensures Concat([a, b] + rest) == a + b + Concat(rest)
  {
    var parts := [a, b] + rest;
    assert parts[1..] == [b] + rest;
    assert parts[1..][1..] == rest;
  }

  /** Joined, the parts of the split give back the text they came from. */
  lemma {:induction false} SplitFromConcat(s: string, pos: nat)
    requires pos <= |s|
    ensures Concat(SplitFrom(s, pos)) == s[pos..]
    decreases |s| - pos
  {
    match FindFrom(s, pos)
    case None =>
      assert s[pos..|s|] == s[pos..];
      assert Concat([s[pos..]]) == s[pos..] + Concat([]);
    case Some(m) =>
      SplitFromConcat(s, m.end);
      ConcatCons(s[pos..m.start], s[m.start..m.end], SplitFrom(s, m.end));
      SliceThree(s, pos, m.start, m.end);
  }

  lemma MatchPieceIsLink(s: string, p: nat, e: nat)
    requires p <= |s| && MatchAt(s, p) == Some(e)
    ensures LinkPart(s[p..e])
  {
    MatchPieceParses(s, p, e);
    MatchPieceShape(s, p, e);
  }

  lemma AlternatesCons(a: string, b: string, rest: seq<string>)
    requires PlainPart(a) && LinkPart(b) && Alternates(rest)
    ensures Alternates([a, b] + rest)
  {
    assert ([a, b] + rest)[2..] == rest;
  }

  /** The parts of the split alternate text parts and link parts. */
  lemma {:induction false} SplitFromAlternates(s: string, pos: nat)
    requires pos <= |s|
    ensures Alternates(SplitFrom(s, pos))
    decreases |s| - pos
  {
    match FindFrom(s, pos)
    case None =>
      NoMatchInPiece(s, pos, |s|);
      assert s[pos..|s|] == s[pos..];
    case Some(m) =>
      NoMatchInPiece(s, pos, m.start);
      MatchPieceIsLink(s, m.start, m.end);
      SplitFromAlternates(s, m.end);
      AlternatesCons(s[pos..m.start], s[m.start..m.end], SplitFrom(s, m.end));
  }

  /** The alternation, index by index: even parts pass the text test and odd parts the link test. */
  lemma {:induction false} AlternatesAt(parts: seq<string>, plain: string -> bool, link: string -> bool)
    requires AlternatesBy(parts, plain, link)
    ensures |parts| % 2 == 1
    ensures forall i :: 0 <= i < |parts| ==> (i % 2 == 0 ==> plain(parts[i])) && (i % 2 == 1 ==> link(parts[i]))
    decreases |parts|
  {
    if |parts| > 1 {
      var rest := parts[2..];
      AlternatesAt(rest, plain, link);
      forall i | 2 <= i < |parts|
        ensures (i % 2 == 0 ==> plain(parts[i])) && (i % 2 == 1 ==> link(parts[i]))
      {
        assert parts[i] == rest[i - 2];
      }
    }
  }

  lemma PartReadsBack(part: string)
    requires PlainPart(part) || LinkPart(part)
    ensures Unparse(ParsePart(part)) == part
    ensures PlainPart(part) ==> ParsePart(part) == Text(part)
  {
  }

  lemma {:induction false} FlattenParsed(parts: seq<string>)
    requires forall i :: 0 <= i < |parts| ==> Unparse(ParsePart(parts[i])) == parts[i]
    ensures Flatten(seq(|parts|, i requires 0 <= i < |parts| => ParsePart(parts[i]))) == Concat(parts)
    decreases |parts|
  {
    if parts != [] {
      var segs := seq(|parts|, i requires 0 <= i < |parts| => ParsePart(parts[i]));
      var tail := parts[1..];
      assert segs[1..] == seq(|tail|, i requires 0 <= i < |tail| => ParsePart(tail[i]));
      FlattenParsed(tail);
    }
  }

  /** Reading the parsed segments back, with every link re-wrapped as `[[linkText]]`, gives exactly the original text. */
  lemma ParseRoundTrip(text: string)
    requires text != ""
    ensures Flatten(ParseContent(Some(text))) == text
  {
    var parts := Split(text);
    SplitFromConcat(text, 0);
    SplitFromAlternates(text, 0);
    AlternatesAt(parts, PlainPart, LinkPart);
    forall i | 0 <= i < |parts|
      ensures Unparse(ParsePart(parts[i])) == parts[i]
    {
      PartReadsBack(parts[i]);
    }
    assert text[0..] == text;
    FlattenParsed(parts);
  }

  /** The parsed segments alternate text, link, text, ..., and end with text. */
  lemma ParseAlternates(text: string)
    requires text != ""
    ensures var segs := ParseContent(Some(text));
      && |segs| % 2 == 1
      && (forall i :: 0 <= i < |segs| ==> (segs[i].WikiLink? <==> i % 2 == 1))
  {
    var parts := Split(text);
    SplitFromAlternates(text, 0);
    AlternatesAt(parts, PlainPart, LinkPart);
    forall i | 0 <= i < |parts|
      ensures ParsePart(parts[i]).WikiLink? <==> i % 2 == 1
    {
      PartReadsBack(parts[i]);
    }
  }

  /** Every link text is clean: no line terminator and no `]]`. */
  lemma ParsedLinkTextsClean(text: string)
    requires text != ""
    ensures var segs := ParseContent(Some(text));
      forall i :: 0 <= i < |segs| && segs[i].WikiLink? ==> CleanLinkText(segs[i].linkText)
  {
    var parts := Split(text);
    SplitFromAlternates(text, 0);
    AlternatesAt(parts, PlainPart, LinkPart);
    forall i | 0 <= i < |parts|
      ensures ParsePart(parts[i]).WikiLink? ==> CleanLinkText(ParsePart(parts[i]).linkText)
    {
      PartLinkTextClean(parts[i]);
    }
  }

  lemma PartLinkTextClean(part: string)
    requires PlainPart(part) || LinkPart(part)
    ensures ParsePart(part).WikiLink? ==> CleanLinkText(ParsePart(part).linkText)
  {
    if PlainPart(part) {
      assert ParsePart(part) == Text(part);
    }
  }

  /** No text segment contains a complete `[[...]]` match. */
  lemma ParsedTextsPlain(text: string)
    requires text != ""
    ensures var segs := ParseContent(Some(text));
      forall i :: 0 <= i < |segs| && segs[i].Text? ==> FindFrom(segs[i].text, 0).None?
  {
    var parts := Split(text);
    SplitFromAlternates(text, 0);
    AlternatesAt(parts, PlainPart, LinkPart);
    forall i | 0 <= i < |parts| && ParsePart(parts[i]).Text?
      ensures FindFrom(ParsePart(parts[i]).text, 0).None?
    {
      PartReadsBack(parts[i]);
    }
  }

  /** A close reached over characters that are neither `]` nor line terminators. */
  lemma {:induction false} CloseAfterPlainRun(s: string, q: nat, c: nat)
    requires q <= c && ClosesAt(s, c)
    requires forall j :: q <= j < c ==> s[j] != ']' && !IsLineTerminator(s[j])
    ensures CloseFrom(s, q) == Some(c)
    decreases c - q
  {
    if q < c {
      CloseAfterPlainRun(s, q + 1, c);
    }
  }

  lemma {:induction false} NoMatchWithoutBracket(s: string, pos: nat)
    requires pos <= |s| && forall j :: pos <= j < |s| ==> s[j] != '['
    ensures FindFrom(s, pos).None?
    decreases |s| - pos
  {
    if pos < |s| {
      NoMatchWithoutBracket(s, pos + 1);
    }
  }

  /** The scan passes over positions where no match starts. */
  lemma {:induction false} FindFromSkips(s: string, pos: nat, p: nat)
    requires pos <= p < |s| && MatchAt(s, p).Some?
    requires forall j :: pos <= j < p ==> MatchAt(s, j).None?
    ensures FindFrom(s, pos) == Some(Match(p, MatchAt(s, p).value))
    decreases p - pos
  {
    if pos < p {
      assert MatchAt(s, pos).None?;
      FindFromSkips(s, pos + 1, p);
      assert FindFrom(s, pos) == FindFrom(s, pos + 1);
    }
  }

  /** With no `[` before it and plain link text, the first match is the one link. */
  lemma SingleLinkFound(before: string, linkText: string, after: string)
    requires '[' !in before && ']' !in linkText
    requires forall k :: 0 <= k < |linkText| ==> !IsLineTerminator(linkText[k])
    ensures var s := before + "[[" + linkText + "]]" + after;
      FindFrom(s, 0) == Some(Match(|before|, |before| + |linkText| + 4))
  {
    var s := before + "[[" + linkText + "]]" + after;
    var p := |before|;
    var e := p + |linkText| + 4;
    forall j | 0 <= j < p
      ensures MatchAt(s, j).None?
    {
      assert s[j] == before[j];
    }
    assert s[p] == '[' && s[p + 1] == '[';
    assert s[e - 2] == ']' && s[e - 1] == ']';
    forall j | p + 2 <= j < e - 2
      ensures s[j] != ']' && !IsLineTerminator(s[j])
    {
      assert s[j] == linkText[j - p - 2];
    }
    CloseAfterPlainRun(s, p + 2, e - 2);
    assert MatchAt(s, p) == Some(e);
    FindFromSkips(s, 0, p);
  }

  lemma SingleLinkSplit(before: string, linkText: string, after: string)
    requires '[' !in before && '[' !in after && ']' !in linkText
    requires forall k :: 0 <= k < |linkText| ==> !IsLineTerminator(linkText[k])
    ensures Split(before + "[[" + linkText + "]]" + after) == [before, "[[" + linkText + "]]", after]
  {
    var s := before + "[[" + linkText + "]]" + after;
    var p := |before|;
    var e := p + |linkText| + 4;
    SingleLinkFound(before, linkText, after);
    forall j | e <= j < |s|
      ensures s[j] != '['
    {
      assert s[j] == after[j - e];
    }
    NoMatchWithoutBracket(s, e);
    assert SplitFrom(s, e) == [s[e..]];
    assert s[0..p] == before && s[p..e] == "[[" + linkText + "]]" && s[e..] == after;
  }

  /** A text holding one link, with no `[` around it and plain link text, parses as text, link, text. */
  lemma SingleLink(before: string, linkText: string, after: string)
    requires '[' !in before && '[' !in after && ']' !in linkText
    requires forall k :: 0 <= k < |linkText| ==> !IsLineTerminator(linkText[k])
    ensures ParseContent(Some(before + "[[" + linkText + "]]" + after)) == [Text(before), WikiLink(linkText), Text(after)]
  {
    var text := before + "[[" + linkText + "]]" + after;
    var link := "[[" + linkText + "]]";
    SingleLinkSplit(before, linkText, after);
    ParseThreeParts(text, before, link, after);
    LoneLinkParses(linkText);
    BracketFreeIsText(before);
    BracketFreeIsText(after);
  }

  lemma ParseThreeParts(text: string, a: string, b: string, c: string)
    requires text != "" && Split(text) == [a, b, c]
    ensures ParseContent(Some(text)) == [ParsePart(a), ParsePart(b), ParsePart(c)]
  {
  }

  lemma LoneLinkParses(linkText: string)
    requires ']' !in linkText
    requires forall k :: 0 <= k < |linkText| ==> !IsLineTerminator(linkText[k])
    ensures ParsePart("[[" + linkText + "]]") == WikiLink(linkText)
  {
    var link := "[[" + linkText + "]]";
    SingleLinkFound("", linkText, "");
    assert "" + "[[" + linkText + "]]" + "" == link;
    assert link[2..|link| - 2] == linkText;
  }

  lemma BracketFreeIsText(t: string)
    requires '[' !in t
    ensures ParsePart(t) == Text(t)
  {
    NoMatchWithoutBracket(t, 0);
  }

  /** The page's own example: `This is a test with [[internal-link]] inside.` */
  const EXAMPLE_BEFORE: string := "This is a test with "
  const EXAMPLE_LINK: string := "internal-link"
  const EXAMPLE_AFTER: string := " inside."

  lemma ExamplePiecesPlain()
    ensures '[' !in EXAMPLE_BEFORE && '[' !in EXAMPLE_AFTER && ']' !in EXAMPLE_LINK
    ensures forall k :: 0 <= k < |EXAMPLE_LINK| ==> !IsLineTerminator(EXAMPLE_LINK[k])
  {
  }

  lemma TestedContent()
    ensures ParseContent(Some(EXAMPLE_BEFORE + "[[" + EXAMPLE_LINK + "]]" + EXAMPLE_AFTER))
         == [Text(EXAMPLE_BEFORE), WikiLink(EXAMPLE_LINK), Text(EXAMPLE_AFTER)]
  {
    ExamplePiecesPlain();
    SingleLink(EXAMPLE_BEFORE, EXAMPLE_LINK, EXAMPLE_AFTER);
  }

  /** The example link leads to its content route; missing or empty text renders nothing. */
  lemma TestedHrefAndBlank()
    ensures Href(EXAMPLE_LINK) == "/content/internal-link"
    ensures ParseContent(None) == [] && ParseContent(Some("")) == []
  {
  }

  // ---- the related graph ----

  datatype ContentItem = ContentItem(id: string, title: string, content: Option<string>, relatedNodes: seq<string>)

  /** The content store, keyed by item id. */
  type Store = map<string, ContentItem>

  function Lookup(store: Store, id: string): Option<ContentItem>
  {
    if id in store then Some(store[id]) else None
  }

  /** One entry per related id, looked up in the store; an unknown id gives no item. */
  function RelatedNodes(item: ContentItem, store: Store): (r: seq<Option<ContentItem>>)
    ensures |r| == |item.relatedNodes|
  {
    seq(|item.relatedNodes|, i requires 0 <= i < |item.relatedNodes| => Lookup(store, item.relatedNodes[i]))
  }

  /** One link per related id, from the item to that id. */
  function RelatedLinks(item: ContentItem): (r: seq<Ends>)
    ensures |r| == |item.relatedNodes|
  {
    seq(|item.relatedNodes|, i requires 0 <= i < |item.relatedNodes| => Ends(item.id, item.relatedNodes[i]))
  }

  /**
   * The mini graph is a star around the item: every link leaves the item, link i
   * reaches the i-th related id, node i is what that link's target names, and every
   * related id is a neighbour of the item.
   */
  lemma RelatedGraphIsStar(item: ContentItem, store: Store)
    ensures var nodes := RelatedNodes(item, store);
      var links := RelatedLinks(item);
      && |nodes| == |links|
      && (forall i :: 0 <= i < |links| ==> links[i].sourceId == item.id && links[i].targetId == item.relatedNodes[i])
      && (forall i :: 0 <= i < |links| ==> nodes[i] == Lookup(store, links[i].targetId))
      && (forall i :: 0 <= i < |links| ==> IsConnected(item.id, item.relatedNodes[i], links))
      && FindConnectedLinks(item.id, links) == links
  {
    var links := RelatedLinks(item);
    forall i | 0 <= i < |links|
      ensures IsConnected(item.id, item.relatedNodes[i], links)
    {
      assert Joins(links[i], item.id, item.relatedNodes[i]);
    }
    AllIncidentKept(item.id, links);
  }

  lemma {:induction false} AllIncidentKept(nodeId: string, links: seq<Ends>)
    requires forall i :: 0 <= i < |links| ==> links[i].sourceId == nodeId
    ensures FindConnectedLinks(nodeId, links) == links
    decreases |links|
  {
    if links != [] {
      AllIncidentKept(nodeId, links[1..]);
    }
  }

  // ---- loading and the page ----

  /** The effect on an id: the item and no error when the store has it, otherwise no item and an error. */
  function LoadContent(store: Store, id: string): (r: (Option<ContentItem>, Option<string>))
    ensures id in store ==> r.0 == Some(store[id]) && r.1 == None
    ensures id !in store ==> r.0 == None && r.1 == Some("Content not found")
  {
    if id in store then (Some(store[id]), None) else (None, Some("Content not found"))
  }

  datatype Page =
    | ErrorPage(message: string)
    | Loading
    | ContentView(title: string, body: seq<Segment>, miniNodes: seq<Option<ContentItem>>, miniLinks: seq<Ends>, currentId: string)

  /** What the component shows: an error wins, then the loading state, then the item. */
  function Render(store: Store, content: Option<ContentItem>, error: Option<string>): (page: Page)
    ensures page.ErrorPage? <==> error.Some? && error.value != ""
    ensures page.Loading? <==> (error.None? || error.value == "") && content.None?
    ensures page.ContentView? ==> page.currentId == content.value.id && page.title == content.value.title
  {
    if error.Some? && error.value != "" then ErrorPage(error.value)
    else if content.None? then Loading
    else ContentView(content.value.title, ParseContent(content.value.content),
                     RelatedNodes(content.value, store), RelatedLinks(content.value), content.value.id)
  }

  /** After loading, a known id shows its item with its parsed body and star; an unknown one shows the error. */
  lemma PageAfterLoad(store: Store, id: string)
    ensures var (content, error) := LoadContent(store, id);
      var page := Render(store, content, error);
      && (id !in store <==> page == ErrorPage("Content not found"))
      && (id in store ==> page == ContentView(store[id].title, ParseContent(store[id].content),
                                              RelatedNodes(store[id], store), RelatedLinks(store[id]), store[id].id))
      && !page.Loading?
  {
  }

  lemma {:induction false} InitialPageLoading(store: Store)
    ensures Render(store, None, None) == Loading
  {
  }
}
