/** The reply parser of the bridge (`parseReply`): a raw assistant reply becomes the text to
    send and the ordered list of image paths named by `[IMAGE:…]` markers.

    The two regular expressions of the source are modelled by explicit scanners:
    - `/<final>([\s\S]*?)<\/final>/` takes the FIRST `<final>` that has a `</final>` somewhere
      after it, and ends at the first `</final>` after that opening tag;
    - `/\[IMAGE:(.*?)\]/g` matches `[IMAGE:` followed by the shortest run of characters up to a
      `]`, where `.` never matches a line terminator; scanning resumes after each match, and
      after a failed attempt it moves on by one character. `matchAll` and `replace` use the
      same pattern, so one tokenisation of the text gives both the paths and the stripped text. */
module ReplyParser {
  import opened Common

  const FinalOpen: string := "<final>"
  const FinalClose: string := "</final>"
  const MarkerOpen: string := "[IMAGE:"

  /** The parser's result: `{ textOnly, imagePaths }`. */
  datatype ParsedReply = ParsedReply(textOnly: string, imagePaths: seq<string>)

  /** `<final>` opens at `i`, no earlier `<final>` exists, and `j` is the first `</final>`
      at or after the end of that opening tag. */
  ghost predicate IsFirstSpan(raw: string, i: nat, j: nat) {
    && OccursAt(raw, FinalOpen, i)
    && (forall k: nat :: k < i ==> !OccursAt(raw, FinalOpen, k))
    && i + |FinalOpen| <= j
    && OccursAt(raw, FinalClose, j)
    && (forall k: nat :: i + |FinalOpen| <= k < j ==> !OccursAt(raw, FinalClose, k))
  }

  /** The capture group of `/<final>([\s\S]*?)<\/final>/`, if the pattern matches. */
  function FinalSpan(raw: string): (r: Option<string>)
    ensures r.None? <==>
      !exists i: nat, j: nat :: OccursAt(raw, FinalOpen, i) && i + |FinalOpen| <= j && OccursAt(raw, FinalClose, j)
    ensures r.Some? ==>
      exists i: nat, j: nat :: IsFirstSpan(raw, i, j) && r.value == raw[i + |FinalOpen|..j]
  {
    match IndexOf(raw, FinalOpen, 0)
    case None => None
    case Some(i) =>
      match IndexOf(raw, FinalClose, i + |FinalOpen|)
      case None =>
        assert forall i': nat, j: nat :: OccursAt(raw, FinalOpen, i') && i' + |FinalOpen| <= j ==>
          !OccursAt(raw, FinalClose, j) by {
          forall i': nat, j: nat | OccursAt(raw, FinalOpen, i') && i' + |FinalOpen| <= j
            ensures !OccursAt(raw, FinalClose, j)
          {
            assert i <= i';
          }
        }
        None
      case Some(j) =>
        assert IsFirstSpan(raw, i, j);
        Some(raw[i + |FinalOpen|..j])
  }

  /** The text the parser works on: the trimmed `<final>` body, or else the whole reply trimmed. */
  function WorkingText(raw: string): string {
    match FinalSpan(raw)
    case Some(inner) => Trim(inner)
    case None => Trim(raw)
  }

  /** A marker body as `(.*?)` can capture it: no `]` and no line terminator. */
  predicate ValidBody(b: string) {
    forall i :: 0 <= i < |b| ==> b[i] != ']' && !IsLineTerminator(b[i])
  }

  /** Where the lazy `(.*?)\]` starting at `k` stops: the first `]`, unless a line terminator
      or the end of the text comes first. */
  function BodyEnd(s: string, k: nat): (r: Option<nat>)
    requires k <= |s|
    decreases |s| - k
    ensures r.Some? ==> k <= r.value < |s| && s[r.value] == ']' && ValidBody(s[k..r.value])
    ensures r.None? ==> forall j :: k <= j < |s| && s[j] == ']' ==> !ValidBody(s[k..j])
  {
    if k == |s| then None
    else if s[k] == ']' then Some(k)
    else if IsLineTerminator(s[k]) then
      assert forall j :: k < j < |s| ==> s[k..j][0] == s[k];
      None
    else
      var r := BodyEnd(s, k + 1);
      assert forall j :: k < j <= |s| ==> s[k..j] == [s[k]] + s[k + 1..j];
      r
  }

  /** The body of the `[IMAGE:…]` marker the regex matches at the very front of `s`, if any. */
  function MarkerAt(s: string): (r: Option<string>)
    ensures r.Some? ==> ValidBody(r.value) && |r.value| + |MarkerOpen| < |s|
                        && s[..|r.value| + |MarkerOpen| + 1] == MarkerOpen + r.value + "]"
    ensures s != [] && s[0] != '[' ==> r.None?
  {
    if StartsWith(s, MarkerOpen) then
      match BodyEnd(s, |MarkerOpen|)
      case Some(j) =>
        assert s[..j + 1] == s[..|MarkerOpen|] + s[|MarkerOpen|..j] + [s[j]];
        Some(s[|MarkerOpen|..j])
      case None => None
    else None
  }

  /** One token of the scanned text: a character kept in the text, or a whole marker. */
  datatype Piece = Lit(c: char) | Marker(body: string)

  /** The scan that `matchAll` and `replace` perform with the `g` flag. */
  function Tokens(s: string): (r: seq<Piece>)
    decreases |s|
    ensures forall i :: 0 <= i < |r| && r[i].Marker? ==> ValidBody(r[i].body)
  {
    if s == [] then []
    else
      match MarkerAt(s)
      case Some(b) => [Marker(b)] + Tokens(s[|b| + |MarkerOpen| + 1..])
      case None => [Lit(s[0])] + Tokens(s[1..])
  }

  function RenderPiece(p: Piece): string {
    match p
    case Lit(c) => [c]
    case Marker(b) => MarkerOpen + b + "]"
  }

  /** The text a token sequence spells. */
  function Render(pcs: seq<Piece>): string {
    if pcs == [] then [] else RenderPiece(pcs[0]) + Render(pcs[1..])
  }

  /** The characters that remain once every marker is removed. */
  function Lits(pcs: seq<Piece>): string {
    if pcs == [] then []
    else (if pcs[0].Lit? then [pcs[0].c] else []) + Lits(pcs[1..])
  }

  /** The captured marker bodies, left to right. */
  function Bodies(pcs: seq<Piece>): seq<string> {
    if pcs == [] then []
    else (if pcs[0].Marker? then [pcs[0].body] else []) + Bodies(pcs[1..])
  }

  function TrimAll(bs: seq<string>): (r: seq<string>)
    ensures |r| == |bs| && forall i :: 0 <= i < |bs| ==> r[i] == Trim(bs[i])
  {
    if bs == [] then [] else [Trim(bs[0])] + TrimAll(bs[1..])
  }

  /** Image extraction and marker removal on the working text. */
  function Split(text: string): ParsedReply {
    var pcs := Tokens(text);
    ParsedReply(Trim(Lits(pcs)), TrimAll(Bodies(pcs)))
  }

  /** `parseReply(rawText)`. */
  function ParseReply(raw: string): (r: ParsedReply)
    ensures r == Split(WorkingText(raw))
    ensures r.textOnly == Trim(r.textOnly)
    ensures |r.imagePaths| == |Bodies(Tokens(WorkingText(raw)))|
  {
    var r := Split(WorkingText(raw));
    TrimIdempotent(Lits(Tokens(WorkingText(raw))));
    r
  }

  lemma RenderCons(p: Piece, t: seq<Piece>)
    ensures Render([p] + t) == RenderPiece(p) + Render(t)
  {
    assert ([p] + t)[1..] == t;
  }

  /** The scan loses nothing: the tokens spell the text they were read from. */
  lemma {:induction false} RenderTokens(s: string)
    ensures Render(Tokens(s)) == s
    decreases |s|
  {
    if s != [] {
      match MarkerAt(s)
      case Some(b) =>
        var n := |b| + |MarkerOpen| + 1;
        assert Tokens(s) == [Marker(b)] + Tokens(s[n..]);
        RenderCons(Marker(b), Tokens(s[n..]));
        RenderTokens(s[n..]);
        MarkerAtSpells(s, b);
      case None =>
        assert Tokens(s) == [Lit(s[0])] + Tokens(s[1..]);
        RenderCons(Lit(s[0]), Tokens(s[1..]));
        RenderTokens(s[1..]);
        assert s == [s[0]] + s[1..];
    }
  }

  /** A marker found at the front spells the front of the text. */
  lemma MarkerAtSpells(s: string, b: string)
    requires MarkerAt(s) == Some(b)
    ensures |b| + |MarkerOpen| + 1 <= |s|
    ensures s == RenderPiece(Marker(b)) + s[|b| + |MarkerOpen| + 1..]
  {
    var n := |b| + |MarkerOpen| + 1;
    assert s == s[..n] + s[n..];
  }

  /** Token sequences the scan reads back unchanged: no kept character is one where a marker
      would start in the rest of the text, and every marker body is one the regex can capture. */
  predicate WellFormed(pcs: seq<Piece>) {
    forall i :: 0 <= i < |pcs| ==>
      (if pcs[i].Lit? then MarkerAt(Render(pcs[i..])).None? else ValidBody(pcs[i].body))
  }

  lemma {:induction false} BodyEndFinds(s: string, k: nat, j: nat)
    requires k <= j < |s| && s[j] == ']' && ValidBody(s[k..j])
    ensures BodyEnd(s, k) == Some(j)
    decreases j - k
  {
    if k < j {
      assert s[k..j][0] == s[k];
      assert s[k + 1..j] == s[k..j][1..];
      BodyEndFinds(s, k + 1, j);
    }
  }

  lemma MarkerAtRendered(b: string, rest: string)
    requires ValidBody(b)
    ensures MarkerAt(MarkerOpen + b + "]" + rest) == Some(b)
  {
    var s := MarkerOpen + b + "]" + rest;
    var j := |MarkerOpen| + |b|;
    assert s[..|MarkerOpen|] == MarkerOpen;
    assert s[|MarkerOpen|..j] == b;
    BodyEndFinds(s, |MarkerOpen|, j);
  }

  /** Rendering well-formed tokens and scanning the text gives the same tokens back. */
  lemma {:induction false} TokensOfRender(pcs: seq<Piece>)
    requires WellFormed(pcs)
    ensures Tokens(Render(pcs)) == pcs
  {
    if pcs != [] {
      var s := Render(pcs);
      var rest := Render(pcs[1..]);
      assert WellFormed(pcs[1..]) by {
        forall i | 0 <= i < |pcs| - 1 ensures pcs[1..][i] == pcs[i + 1] && pcs[1..][i..] == pcs[i + 1..] { }
      }
      TokensOfRender(pcs[1..]);
      match pcs[0]
      case Lit(c) =>
        assert pcs[0..] == pcs;
        assert MarkerAt(s).None?;
        assert s == [c] + rest;
        assert s[1..] == rest;
      case Marker(b) =>
        assert ValidBody(b);
        assert s == MarkerOpen + b + "]" + rest;
        MarkerAtRendered(b, rest);
        assert s[|b| + |MarkerOpen| + 1..] == rest;
    }
  }

  /** Paths come out one per marker, trimmed, in left-to-right order, and the text keeps exactly
      the characters outside the markers. */
  lemma SplitOfRender(pcs: seq<Piece>)
    requires WellFormed(pcs)
    ensures Split(Render(pcs)).imagePaths == TrimAll(Bodies(pcs))
    ensures Split(Render(pcs)).textOnly == Trim(Lits(pcs))
  {
    TokensOfRender(pcs);
  }

  /** Every text is spelled by well-formed tokens, its own scan, so `SplitOfRender` speaks about
      every text the parser can meet. */
  lemma {:induction false} TokensAreWellFormed(s: string)
    ensures WellFormed(Tokens(s)) && Render(Tokens(s)) == s
    decreases |s|
  {
    RenderTokens(s);
    if s != [] {
      var pcs := Tokens(s);
      match MarkerAt(s)
      case Some(b) =>
        var n := |b| + |MarkerOpen| + 1;
        assert pcs == [Marker(b)] + Tokens(s[n..]);
        TokensAreWellFormed(s[n..]);
        forall i | 1 <= i < |pcs| ensures pcs[i] == Tokens(s[n..])[i - 1] && pcs[i..] == Tokens(s[n..])[i - 1..] { }
      case None =>
        assert pcs == [Lit(s[0])] + Tokens(s[1..]);
        TokensAreWellFormed(s[1..]);
        forall i | 1 <= i < |pcs| ensures pcs[i] == Tokens(s[1..])[i - 1] && pcs[i..] == Tokens(s[1..])[i - 1..] { }
        assert pcs[0..] == pcs;
    }
  }

  /** Without any `[IMAGE:` the scan keeps every character. */
  lemma {:induction false} TokensWithoutMarkers(s: string)
    requires !Contains(s, MarkerOpen)
    ensures Lits(Tokens(s)) == s && Bodies(Tokens(s)) == []
    decreases |s|
  {
    if s != [] {
      assert MarkerAt(s).None? by {
        if StartsWith(s, MarkerOpen) { assert OccursAt(s, MarkerOpen, 0); }
      }
      assert !Contains(s[1..], MarkerOpen) by {
        forall i: nat | i <= |s[1..]| ensures !OccursAt(s[1..], MarkerOpen, i) {
          OccursShift(s, MarkerOpen, i);
          assert !OccursAt(s, MarkerOpen, i + 1);
        }
      }
      TokensWithoutMarkers(s[1..]);
    }
  }

  lemma OccursShift(s: string, pat: string, i: nat)
    requires s != []
    ensures OccursAt(s[1..], pat, i) <==> OccursAt(s, pat, i + 1)
  {
    if i + |pat| <= |s[1..]| {
      assert s[1..][i..i + |pat|] == s[i + 1..i + 1 + |pat|];
    }
  }

  /** With no markers the text is the working text and there are no images. */
  lemma NoMarkersKeepText(raw: string)
    requires !Contains(WorkingText(raw), MarkerOpen)
    ensures ParseReply(raw) == ParsedReply(WorkingText(raw), [])
  {
    var w := WorkingText(raw);
    TokensWithoutMarkers(w);
    match FinalSpan(raw)
    case Some(inner) => TrimIdempotent(inner);
    case None => TrimIdempotent(raw);
  }

  /** An empty marker yields an empty path. */
  lemma EmptyMarkerGivesEmptyPath()
    ensures ParseReply(MarkerOpen + "]") == ParsedReply("", [""])
  {
    var s := MarkerOpen + "]";
    NoFinalWithoutAngle(s);
    TrimOfTrimmed(s);
    assert WorkingText(s) == s;
    EmptyMarkerSplit();
  }

  /** The lone empty marker splits into no text and one empty path. */
  lemma EmptyMarkerSplit()
    ensures Split(MarkerOpen + "]") == ParsedReply("", [""])
  {
    var pcs := [Marker("")];
    assert Render(pcs) == MarkerOpen + "]";
    SplitOfRender(pcs);
    assert Lits(pcs) == "";
    assert TrimAll(Bodies(pcs)) == [Trim("")];
  }

  /** Text without a `<` holds no `<final>` span. */
  lemma NoFinalWithoutAngle(s: string)
    requires forall i :: 0 <= i < |s| ==> s[i] != '<'
    ensures FinalSpan(s).None?
  {
    forall i: nat ensures !OccursAt(s, FinalOpen, i) {
      if i + |FinalOpen| <= |s| {
        assert s[i..i + |FinalOpen|][0] == s[i];
      }
    }
  }

  lemma OnlyLastIsGt(tag: string, i: nat)
    requires tag == FinalOpen || tag == FinalClose
    requires i < |tag| - 1
    ensures tag[i] != '>'
  {
  }

  /** A `<final>` or `</final>` that starts inside `x` and is found in `x + tag + rest` lies wholly
      inside `x`: the tag's only `>` is its last character, so it cannot overlap the copy of
      itself that follows `x`. */
  lemma NoStraddle(x: string, tag: string, rest: string, k: nat)
    requires tag == FinalOpen || tag == FinalClose
    requires k < |x|
    ensures OccursAt(x + tag + rest, tag, k) ==> OccursAt(x, tag, k)
  {
    var s := x + tag + rest;
    if k + |tag| > |x| {
      if k + |tag| <= |s| {
        var last := k + |tag| - 1;
        assert s[k..k + |tag|][|tag| - 1] == s[last];
        assert s[last] == tag[last - |x|];
        OnlyLastIsGt(tag, last - |x|);
        assert tag[|tag| - 1] == '>';
        assert s[k..k + |tag|][|tag| - 1] != tag[|tag| - 1];
      }
    } else {
      assert x[k..k + |tag|] == s[k..k + |tag|];
    }
  }

  /** With no `<final>` in `p`, the first `<final>` of `p + <final> + rest` is right after `p`. */
  lemma FirstOpenAfter(p: string, rest: string)
    requires !Contains(p, FinalOpen)
    ensures OccursAt(p + FinalOpen + rest, FinalOpen, |p|)
    ensures forall k: nat :: k < |p| ==> !OccursAt(p + FinalOpen + rest, FinalOpen, k)
  {
    var raw := p + FinalOpen + rest;
    assert raw[|p|..|p| + |FinalOpen|] == FinalOpen;
    forall k: nat | k < |p| ensures !OccursAt(raw, FinalOpen, k) {
      NoStraddle(p, FinalOpen, rest, k);
    }
  }

  /** With no `</final>` in `x`, the first `</final>` at or after the start of `x` follows it. */
  lemma FirstCloseAfter(p: string, x: string, q: string)
    requires !Contains(x, FinalClose)
    ensures var raw := p + FinalOpen + x + FinalClose + q;
      && OccursAt(raw, FinalClose, |p| + |FinalOpen| + |x|)
      && forall k: nat :: |p| + |FinalOpen| <= k < |p| + |FinalOpen| + |x| ==> !OccursAt(raw, FinalClose, k)
  {
    var raw := p + FinalOpen + x + FinalClose + q;
    var i := |p| + |FinalOpen|;
    var tail := raw[i..];
    assert tail == x + FinalClose + q;
    assert raw[i + |x|..i + |x| + |FinalClose|] == FinalClose;
    forall k: nat | i <= k < i + |x| ensures !OccursAt(raw, FinalClose, k) {
      var k' := k - i;
      NoStraddle(x, FinalClose, q, k');
      if k + |FinalClose| <= |raw| {
        assert tail[k'..k' + |FinalClose|] == raw[k..k + |FinalClose|];
      }
    }
  }

  /** There is only one first span. */
  lemma FirstSpanUnique(raw: string, i: nat, j: nat, i2: nat, j2: nat)
    requires IsFirstSpan(raw, i, j) && IsFirstSpan(raw, i2, j2)
    ensures i == i2 && j == j2
  {
  }

  /** What surrounds the first `<final>…</final>` span never affects the working text. */
  lemma OutsideFinalIgnored(p: string, x: string, q: string)
    requires !Contains(p, FinalOpen) && !Contains(x, FinalClose)
    ensures WorkingText(p + FinalOpen + x + FinalClose + q) == Trim(x)
  {
    var raw := p + FinalOpen + x + FinalClose + q;
    var i := |p|;
    var j := |p| + |FinalOpen| + |x|;
    assert raw == p + FinalOpen + (x + FinalClose + q);
    FirstOpenAfter(p, x + FinalClose + q);
    FirstCloseAfter(p, x, q);
    assert IsFirstSpan(raw, i, j);
    var inner := FinalSpan(raw).value;
    var i2: nat, j2: nat :| IsFirstSpan(raw, i2, j2) && inner == raw[i2 + |FinalOpen|..j2];
    FirstSpanUnique(raw, i, j, i2, j2);
    assert raw[i + |FinalOpen|..j] == x;
  }
}
