/** The intelligence extractor: `re.findall` of the UPI pattern
    `[a-zA-Z0-9.\-_]+@[a-zA-Z]+` and of the link pattern `https?://\S+`,
    written as hand-made scanners, and the record `extract_info` returns. */
module Extractor {
  import opened Text

  /** The two patterns `extract_info` searches for. */
  datatype Pattern = Upi | Link

  /** A match: the text between `start` (included) and `end` (excluded). */
  datatype Span = Span(start: nat, end: nat)

  /** The record `extract_info` returns. */
  datatype Intelligence = Intelligence(
    upiIds: seq<string>,
    phishingLinks: seq<string>,
    bankAccounts: seq<string>)

  /** The language of the UPI pattern: one or more local characters,
      one `@`, one or more ASCII letters. */
  ghost predicate UpiShaped(s: string) {
    exists a :: 0 < a < |s| - 1 && s[a] == '@' && AllIn(Local, s, 0, a) && AllIn(Letter, s, a + 1, |s|)
  }

  /** The language of the link pattern: `http://` or `https://`, then one or
      more characters none of which is whitespace. */
  ghost predicate LinkShaped(s: string) {
    (|s| > 7 && s[..7] == "http://" && AllIn(NonSpace, s, 7, |s|)) ||
    (|s| > 8 && s[..8] == "https://" && AllIn(NonSpace, s, 8, |s|))
  }

  ghost predicate Shaped(p: Pattern, s: string) {
    match p
    case Upi => UpiShaped(s)
    case Link => LinkShaped(s)
  }

  /** `t` holds `w` at position `i`. */
  function StartsAt(t: string, i: nat, w: string): bool {
    i + |w| <= |t| && t[i..i + |w|] == w
  }

  /** Where the `\S+` part starts when `https?://` matches at `i`. */
  function SchemeEnd(t: string, i: nat): Option<nat> {
    if StartsAt(t, i, "https://") then Some(i + 8)
    else if StartsAt(t, i, "http://") then Some(i + 7)
    else None
  }

  /** A run of `cl` characters from `i` stopped by a character outside `cl`
      at `m` is the maximal run. */
  lemma RunEndAt(cl: CharClass, t: string, i: nat, m: nat)
    requires i <= m < |t| && !InClass(cl, t[m]) && AllIn(cl, t, i, m)
    ensures RunEnd(cl, t, i) == m
  {
    RunEndSpec(cl, t, i);
  }

  /** A run of `cl` characters from `i` to `m` ends no later than the maximal one. */
  lemma RunEndBeyond(cl: CharClass, t: string, i: nat, m: nat)
    requires i <= m <= |t| && AllIn(cl, t, i, m)
    ensures m <= RunEnd(cl, t, i)
  {
    RunEndSpec(cl, t, i);
  }

  /** A UPI match at `i` must put its `@` where the run of local characters
      from `i` stops, and end inside the run of letters after it. */
  lemma {:induction false} UpiShapeAnchored(t: string, i: nat, e: nat)
    requires i < e <= |t| && UpiShaped(t[i..e])
    ensures var a := RunEnd(Local, t, i);
      i < a < e - 1 && t[a] == '@' && a + 1 < e <= RunEnd(Letter, t, a + 1)
  {
    var s := t[i..e];
    var w :| 0 < w < |s| - 1 && s[w] == '@' && AllIn(Local, s, 0, w) && AllIn(Letter, s, w + 1, |s|);
    var a := i + w;
    assert t[a] == '@';
    AllInSlice(Local, t, i, e, 0, w);
    RunEndAt(Local, t, i, a);
    AllInSlice(Letter, t, i, e, w + 1, |s|);
    RunEndBeyond(Letter, t, a + 1, e);
  }

  /** A link match at `i` starts with the scheme `SchemeEnd` finds, and its
      remainder lies inside the run of non-whitespace after the scheme. */
  lemma {:induction false} LinkShapeAnchored(t: string, i: nat, e: nat)
    requires i < e <= |t| && LinkShaped(t[i..e])
    ensures SchemeEnd(t, i).Some?
    ensures var h := SchemeEnd(t, i).value; h < e <= RunEnd(NonSpace, t, h)
  {
    var s := t[i..e];
    var n: nat;
    if |s| > 7 && s[..7] == "http://" && AllIn(NonSpace, s, 7, |s|) {
      assert t[i..i + 7] == s[..7];
      assert t[i + 4] == s[..7][4] == ':';
      assert !StartsAt(t, i, "https://");
      n := 7;
    } else {
      assert t[i..i + 8] == s[..8];
      n := 8;
    }
    assert SchemeEnd(t, i) == Some(i + n);
    AllInSlice(NonSpace, t, i, e, n, |s|);
    RunEndBeyond(NonSpace, t, i + n, e);
  }

  /** The UPI pattern tried at `i`: the run of local characters, an `@`,
      then the run of letters; `None` when one of the three is missing. */
  function UpiMatchAt(t: string, i: nat): (r: Option<nat>)
    requires i <= |t|
    ensures r.Some? ==> i < r.value <= |t|
  {
    var a := RunEnd(Local, t, i);
    if i < a < |t| && t[a] == '@' then
      var e := RunEnd(Letter, t, a + 1);
      if a + 1 < e then Some(e) else None
    else None
  }

  /** The link pattern tried at `i`: a scheme, then the run of non-whitespace;
      `None` when either is missing. */
  function LinkMatchAt(t: string, i: nat): (r: Option<nat>)
    requires i <= |t|
    ensures r.Some? ==> i < r.value <= |t|
  {
    match SchemeEnd(t, i)
    case None => None
    case Some(h) =>
      var e := RunEnd(NonSpace, t, h);
      if h < e then Some(e) else None
  }

  /** What `re.search` of pattern `p` anchored at `i` finds. */
  function MatchAt(p: Pattern, t: string, i: nat): (r: Option<nat>)
    requires i <= |t|
    ensures r.Some? ==> i < r.value <= |t|
  {
    match p
    case Upi => UpiMatchAt(t, i)
    case Link => LinkMatchAt(t, i)
  }

  /** What the UPI scanner finds is in the pattern's language. */
  lemma UpiMatchShaped(t: string, i: nat)
    requires i <= |t| && UpiMatchAt(t, i).Some?
    ensures UpiShaped(t[i..UpiMatchAt(t, i).value])
  {
    var a := RunEnd(Local, t, i);
    var e := RunEnd(Letter, t, a + 1);
    RunEndSpec(Local, t, i);
    RunEndSpec(Letter, t, a + 1);
    var s := t[i..e];
    assert s[a - i] == '@';
    AllInSlice(Local, t, i, e, 0, a - i);
    AllInSlice(Letter, t, i, e, a - i + 1, |s|);
  }

  /** The UPI scanner finds the longest text from `i` in the pattern's
      language, and finds nothing exactly when there is none. */
  lemma {:induction false} UpiMatchLongest(t: string, i: nat)
    requires i <= |t|
    ensures var r := UpiMatchAt(t, i);
      (r.Some? ==> UpiShaped(t[i..r.value]) && forall e :: r.value < e <= |t| ==> !UpiShaped(t[i..e])) &&
      (r.None? ==> forall e :: i < e <= |t| ==> !UpiShaped(t[i..e]))
  {
    if UpiMatchAt(t, i).Some? {
      UpiMatchShaped(t, i);
    }
    forall e' | i < e' <= |t| && UpiShaped(t[i..e'])
      ensures UpiMatchAt(t, i).Some? && e' <= UpiMatchAt(t, i).value
    {
      UpiShapeAnchored(t, i, e');
    }
  }

  /** What the link scanner finds is in the pattern's language. */
  lemma LinkMatchShaped(t: string, i: nat)
    requires i <= |t| && LinkMatchAt(t, i).Some?
    ensures LinkShaped(t[i..LinkMatchAt(t, i).value])
  {
    var h := SchemeEnd(t, i).value;
    var e := RunEnd(NonSpace, t, h);
    RunEndSpec(NonSpace, t, h);
    var s := t[i..e];
    var n := h - i;
    SlicePrefix(t, i, e, n);
    AllInSlice(NonSpace, t, i, e, n, |s|);
  }

  /** The first `n` characters of `t[i..e]` are `t[i..i + n]`. */
  lemma SlicePrefix(t: string, i: nat, e: nat, n: nat)
    requires i + n <= e <= |t|
    ensures t[i..e][..n] == t[i..i + n]
  {
  }

  /** The link scanner finds the longest text from `i` in the pattern's
      language, and finds nothing exactly when there is none. */
  lemma {:induction false} LinkMatchLongest(t: string, i: nat)
    requires i <= |t|
    ensures var r := LinkMatchAt(t, i);
      (r.Some? ==> LinkShaped(t[i..r.value]) && forall e :: r.value < e <= |t| ==> !LinkShaped(t[i..e])) &&
      (r.None? ==> forall e :: i < e <= |t| ==> !LinkShaped(t[i..e]))
  {
    if LinkMatchAt(t, i).Some? {
      LinkMatchShaped(t, i);
    }
    forall e' | i < e' <= |t| && LinkShaped(t[i..e'])
      ensures LinkMatchAt(t, i).Some? && e' <= LinkMatchAt(t, i).value
    {
      LinkShapeAnchored(t, i, e');
    }
  }

  /** A link runs to the next whitespace, so punctuation after it is kept:
      in "http://x.in, hi" the match is "http://x.in,". */
  lemma LinkKeepsTrailingComma()
    ensures LinkMatchAt("http://x.in, hi", 0) == Some(12)
  {
    var t := "http://x.in, hi";
    assert t[..8][4] == ':';
    assert StartsAt(t, 0, "http://") && !StartsAt(t, 0, "https://");
    assert !InClass(NonSpace, t[12]) && AllIn(NonSpace, t, 7, 12);
    RunEndAt(NonSpace, t, 7, 12);
  }

  /** The part after the `@` is letters only, so a digit ends the UPI id:
      in "pay.me@ok9" the match is "pay.me@ok". */
  lemma UpiStopsAtDigit()
    ensures UpiMatchAt("pay.me@ok9", 0) == Some(9)
  {
    var t := "pay.me@ok9";
    assert !InClass(Local, t[6]) && AllIn(Local, t, 0, 6);
    RunEndAt(Local, t, 0, 6);
    assert !InClass(Letter, t[9]) && AllIn(Letter, t, 7, 9);
    RunEndAt(Letter, t, 7, 9);
  }

  /** A match at `i` is the longest text from `i` in the pattern's language,
      and there is no match exactly when no such text exists. */
  lemma MatchAtLongest(p: Pattern, t: string, i: nat)
    requires i <= |t|
    ensures var r := MatchAt(p, t, i);
      (r.Some? ==> Shaped(p, t[i..r.value]) && forall e :: r.value < e <= |t| ==> !Shaped(p, t[i..e])) &&
      (r.None? ==> forall e :: i < e <= |t| ==> !Shaped(p, t[i..e]))
  {
    match p
    case Upi => UpiMatchLongest(t, i);
    case Link => LinkMatchLongest(t, i);
  }

  /** The result of trying a pattern at every position of a text: entry `j`
      is where the match starting at `j` ends, if there is one. */
  ghost predicate IsMatchTable(m: seq<Option<nat>>) {
    forall j :: 0 <= j < |m| && m[j].Some? ==> j < m[j].value <= |m|
  }

  /** The pattern tried at every position of `t`. */
  function MatchTable(p: Pattern, t: string): (m: seq<Option<nat>>)
    ensures |m| == |t| && IsMatchTable(m)
  {
    seq(|t|, j requires 0 <= j < |t| => MatchAt(p, t, j))
  }

  /** Position `j` lies inside one of the spans. */
  ghost predicate Covered(spans: seq<Span>, j: nat) {
    exists k :: 0 <= k < |spans| && spans[k].start <= j < spans[k].end
  }

  /** Each span starts at or after `i` and is the match found at its start. */
  ghost predicate SpansMatch(m: seq<Option<nat>>, i: nat, spans: seq<Span>) {
    forall k :: 0 <= k < |spans| ==>
      i <= spans[k].start < |m| && m[spans[k].start] == Some(spans[k].end)
  }

  /** The spans come left to right without overlapping. */
  ghost predicate SpansOrdered(spans: seq<Span>) {
    forall k, l :: 0 <= k < l < |spans| ==> spans[k].end <= spans[l].start
  }

  /** No match at or after `i` starts at a position that none of the spans covers. */
  ghost predicate SpansComplete(m: seq<Option<nat>>, i: nat, spans: seq<Span>) {
    forall j :: i <= j < |m| && m[j].Some? ==> Covered(spans, j)
  }

  /** The spans `re.findall` reports when it scans from `i`: matches found at
      their starts, left to right, and none skipped over. */
  ghost predicate IsFindAll(m: seq<Option<nat>>, i: nat, spans: seq<Span>) {
    SpansMatch(m, i, spans) && SpansOrdered(spans) && SpansComplete(m, i, spans)
  }

  /** No match at `i`: the scan from `i + 1` is also the scan from `i`. */
  lemma FindAllSkip(m: seq<Option<nat>>, i: nat, rest: seq<Span>)
    requires i < |m| && m[i].None? && IsFindAll(m, i + 1, rest)
    ensures IsFindAll(m, i, rest)
  {
  }

  /** A match from `i` to `e` followed by the scan from `e` is the scan from `i`. */
  lemma FindAllTake(m: seq<Option<nat>>, i: nat, e: nat, rest: seq<Span>)
    requires i < |m| && m[i] == Some(e) && i < e && IsFindAll(m, e, rest)
    ensures IsFindAll(m, i, [Span(i, e)] + rest)
  {
    TakeMatch(m, i, e, rest);
    TakeOrdered(i, e, rest);
    TakeComplete(m, i, e, rest);
  }

  lemma TakeMatch(m: seq<Option<nat>>, i: nat, e: nat, rest: seq<Span>)
    requires i < |m| && m[i] == Some(e) && i < e && SpansMatch(m, e, rest)
    ensures SpansMatch(m, i, [Span(i, e)] + rest)
  {
    var r := [Span(i, e)] + rest;
    forall k | 0 <= k < |r|
      ensures i <= r[k].start < |m| && m[r[k].start] == Some(r[k].end)
    {
      if k > 0 {
        assert r[k] == rest[k - 1];
      }
    }
  }

  lemma TakeOrdered(i: nat, e: nat, rest: seq<Span>)
    requires SpansOrdered(rest) && forall k :: 0 <= k < |rest| ==> e <= rest[k].start
    ensures SpansOrdered([Span(i, e)] + rest)
  {
    var r := [Span(i, e)] + rest;
    forall k, l | 0 <= k < l < |r| ensures r[k].end <= r[l].start {
      assert r[l] == rest[l - 1];
      if k > 0 {
        assert r[k] == rest[k - 1];
      }
    }
  }

  lemma TakeComplete(m: seq<Option<nat>>, i: nat, e: nat, rest: seq<Span>)
    requires i < e && SpansComplete(m, e, rest)
    ensures SpansComplete(m, i, [Span(i, e)] + rest)
  {
    var r := [Span(i, e)] + rest;
    forall j | i <= j < |m| && m[j].Some? ensures Covered(r, j) {
      if j < e {
        assert r[0].start <= j < r[0].end;
      } else {
        var k :| 0 <= k < |rest| && rest[k].start <= j < rest[k].end;
        assert r[k + 1] == rest[k];
      }
    }
  }

  /** The left-to-right scan of `re.findall`: try a match at `i`; on success
      resume where it ends, otherwise move on by one position. */
  function Scan(m: seq<Option<nat>>, i: nat): seq<Span>
    requires IsMatchTable(m) && i <= |m|
    decreases |m| - i
  {
    if i == |m| then []
    else match m[i]
      case None => Scan(m, i + 1)
      case Some(e) => [Span(i, e)] + Scan(m, e)
  }

  /** The scan finds matches at their starts, left to right, skipping none. */
  lemma {:induction false} ScanIsFindAll(m: seq<Option<nat>>, i: nat)
    requires IsMatchTable(m) && i <= |m|
    ensures IsFindAll(m, i, Scan(m, i))
    decreases |m| - i
  {
    if i < |m| {
      match m[i]
      case None =>
        ScanIsFindAll(m, i + 1);
        FindAllSkip(m, i, Scan(m, i + 1));
      case Some(e) =>
        ScanIsFindAll(m, e);
        FindAllTake(m, i, e, Scan(m, e));
    }
  }

  /** The spans of all matches of `p` in `t`, left to right. */
  function FindSpans(p: Pattern, t: string): (r: seq<Span>)
    ensures IsFindAll(MatchTable(p, t), 0, r)
    ensures SpansIn(r, |t|)
  {
    ScanIsFindAll(MatchTable(p, t), 0);
    Scan(MatchTable(p, t), 0)
  }

  /** Every span lies inside a text of length `n`. */
  predicate SpansIn(spans: seq<Span>, n: nat) {
    forall k :: 0 <= k < |spans| ==> spans[k].start <= spans[k].end <= n
  }

  /** The texts of the spans, in order. */
  function Texts(t: string, spans: seq<Span>): (r: seq<string>)
    requires SpansIn(spans, |t|)
    ensures |r| == |spans|
    ensures forall k :: 0 <= k < |spans| ==> r[k] == t[spans[k].start..spans[k].end]
  {
    seq(|spans|, k requires 0 <= k < |spans| => t[spans[k].start..spans[k].end])
  }

  /** The text of a match is in the pattern's language. */
  lemma TableShaped(p: Pattern, t: string, j: nat)
    requires j < |t| && MatchTable(p, t)[j].Some?
    ensures MatchTable(p, t)[j].value <= |t|
    ensures Shaped(p, t[j..MatchTable(p, t)[j].value])
  {
    MatchAtLongest(p, t, j);
  }

  /** The texts of spans that are matches are in the pattern's language and
      occur in `t` where the spans say. */
  lemma TextsShaped(p: Pattern, t: string, spans: seq<Span>)
    requires SpansMatch(MatchTable(p, t), 0, spans)
    ensures SpansIn(spans, |t|)
    ensures var r := Texts(t, spans);
      forall k :: 0 <= k < |r| ==> Shaped(p, r[k]) && OccursAt(r[k], t, spans[k].start)
  {
    var m := MatchTable(p, t);
    forall k | 0 <= k < |spans| ensures spans[k].start <= spans[k].end <= |t| {
      assert m[spans[k].start] == Some(spans[k].end);
    }
    var r := Texts(t, spans);
    forall k | 0 <= k < |r| ensures Shaped(p, r[k]) && OccursAt(r[k], t, spans[k].start) {
      TableShaped(p, t, spans[k].start);
    }
  }

  /** The matches `re.findall(p, t)` finds from position `i` on: try the
      pattern at `i`; after a match resume at its end, otherwise at `i + 1`. */
  function SpansFrom(p: Pattern, t: string, i: nat): (r: seq<Span>)
    requires i <= |t|
    ensures SpansIn(r, |t|)
    decreases |t| - i
  {
    if i == |t| then []
    else match MatchAt(p, t, i)
      case None => SpansFrom(p, t, i + 1)
      case Some(e) => [Span(i, e)] + SpansFrom(p, t, e)
  }

  /** `re.findall(p, t)`: the texts of all matches, left to right. */
  function FindAll(p: Pattern, t: string): (r: seq<string>)
  {
    Texts(t, SpansFrom(p, t, 0))
  }

  /** One step of both scans from `i`: they resume at the same position `j`,
      so they agree from `i` when they agree from `j`. */
  lemma SpansFromStep(p: Pattern, t: string, i: nat) returns (j: nat)
    requires i < |t|
    ensures i < j <= |t|
    ensures SpansFrom(p, t, j) == Scan(MatchTable(p, t), j) ==>
      SpansFrom(p, t, i) == Scan(MatchTable(p, t), i)
  {
    assert MatchTable(p, t)[i] == MatchAt(p, t, i);
    match MatchAt(p, t, i)
    case None => j := i + 1;
    case Some(e) => j := e;
  }

  /** Resuming after each match, as `re.findall` does, finds the spans of
      `Scan` over the table of all matches. */
  lemma {:induction false} SpansFromScan(p: Pattern, t: string, i: nat)
    requires i <= |t|
    ensures SpansFrom(p, t, i) == Scan(MatchTable(p, t), i)
    decreases |t| - i
  {
    if i < |t| {
      var j := SpansFromStep(p, t, i);
      SpansFromScan(p, t, j);
    }
  }

  /** Every text `re.findall` returns is in the pattern's language and
      occurs in `t`. */
  lemma FindAllShaped(p: Pattern, t: string)
    ensures var r := FindAll(p, t);
      forall k :: 0 <= k < |r| ==> Shaped(p, r[k]) && Occurs(r[k], t)
  {
    SpansFromScan(p, t, 0);
    TextsShaped(p, t, FindSpans(p, t));
  }

  /** `extract_info`: UPI ids and links as found; bank accounts always empty. */
  function ExtractInfo(text: string): (r: Intelligence)
    ensures r.bankAccounts == []
  {
    Intelligence(FindAll(Upi, text), FindAll(Link, text), [])
  }

  /** Each UPI id `extract_info` returns has the UPI shape and each link the
      link shape, and each occurs in the text. */
  lemma ExtractInfoShaped(text: string)
    ensures var r := ExtractInfo(text);
      (forall k :: 0 <= k < |r.upiIds| ==> UpiShaped(r.upiIds[k]) && Occurs(r.upiIds[k], text)) &&
      (forall k :: 0 <= k < |r.phishingLinks| ==>
        LinkShaped(r.phishingLinks[k]) && Occurs(r.phishingLinks[k], text))
  {
    FindAllShaped(Upi, text);
    FindAllShaped(Link, text);
  }

  /** Spans with the `re.findall` properties from `i` where no match starts
      at `i` have them from `i + 1` too. */
  lemma FindAllMiss(m: seq<Option<nat>>, i: nat, r: seq<Span>)
    requires i < |m| && IsFindAll(m, i, r) && m[i].None?
    ensures IsFindAll(m, i + 1, r)
  {
  }

  /** Spans with the `re.findall` properties from `i`, where a match from `i`
      to `e` exists, begin with that match. */
  lemma FindAllHead(m: seq<Option<nat>>, i: nat, e: nat, r: seq<Span>)
    requires IsMatchTable(m) && i < |m| && IsFindAll(m, i, r) && m[i] == Some(e)
    ensures r != [] && r[0] == Span(i, e)
  {
    assert Covered(r, i);
    var k :| 0 <= k < |r| && r[k].start <= i < r[k].end;
    assert r[0].start < r[0].end;
    assert k == 0;
  }

  /** After their first span, such spans have the `re.findall` properties
      from the end of that span on. */
  lemma FindAllTail(m: seq<Option<nat>>, i: nat, e: nat, r: seq<Span>)
    requires IsMatchTable(m) && IsFindAll(m, i, r) && r != [] && r[0] == Span(i, e)
    ensures IsFindAll(m, e, r[1..])
  {
    var rest := r[1..];
    assert forall n :: 0 <= n < |rest| ==> rest[n] == r[n + 1];
    forall n | 0 <= n < |rest| ensures e <= rest[n].start {
      assert r[0].end <= r[n + 1].start;
    }
    forall j | e <= j < |m| && m[j].Some? ensures Covered(rest, j) {
      var n :| 0 <= n < |r| && r[n].start <= j < r[n].end;
      assert n != 0;
      assert rest[n - 1] == r[n];
    }
  }

  /** The scan is the only list of spans with the `re.findall` properties:
      a match at the first position that has one, then the same from its end. */
  lemma {:induction false} FindAllUnique(m: seq<Option<nat>>, i: nat, r: seq<Span>)
    requires IsMatchTable(m) && i <= |m| && IsFindAll(m, i, r)
    ensures r == Scan(m, i)
    decreases |m| - i
  {
    if i < |m| {
      match m[i]
      case None =>
        FindAllMiss(m, i, r);
        FindAllUnique(m, i + 1, r);
      case Some(e) =>
        FindAllHead(m, i, e, r);
        FindAllTail(m, i, e, r);
        FindAllUnique(m, e, r[1..]);
        assert r == [r[0]] + r[1..];
    }
  }

  /** `extract_info` lists, for each pattern, the texts of exactly the spans
      that have the `re.findall` properties over the whole text. */
  lemma ExtractInfoIsFindAll(text: string, upis: seq<Span>, links: seq<Span>)
    requires IsFindAll(MatchTable(Upi, text), 0, upis)
    requires IsFindAll(MatchTable(Link, text), 0, links)
    ensures ExtractInfo(text) == Intelligence(Texts(text, upis), Texts(text, links), [])
  {
    FindAllUnique(MatchTable(Upi, text), 0, upis);
    FindAllUnique(MatchTable(Link, text), 0, links);
    SpansFromScan(Upi, text, 0);
    SpansFromScan(Link, text, 0);
  }

  /** Every UPI id holds an `@`, so the text does too. */
  lemma UpiIdsNeedAtSign(text: string)
    ensures ExtractInfo(text).upiIds != [] ==> exists k :: 0 <= k < |text| && text[k] == '@'
  {
    ExtractInfoShaped(text);
    var ids := ExtractInfo(text).upiIds;
    if ids != [] {
      var s := ids[0];
      var a :| 0 < a < |s| - 1 && s[a] == '@' && AllIn(Local, s, 0, a) && AllIn(Letter, s, a + 1, |s|);
      var i :| OccursAt(s, text, i);
      assert text[i + a] == s[a];
    }
  }

  /** A text without an `@` yields no UPI ids. */
  lemma NoAtSignNoUpiIds(text: string)
    requires forall k :: 0 <= k < |text| ==> text[k] != '@'
    ensures ExtractInfo(text).upiIds == []
  {
    UpiIdsNeedAtSign(text);
  }

  /** Every link holds "://", so the text does too. */
  lemma LinksNeedScheme(text: string)
    ensures ExtractInfo(text).phishingLinks != [] ==> Occurs("://", text)
  {
    ExtractInfoShaped(text);
    var links := ExtractInfo(text).phishingLinks;
    if links != [] {
      var s := links[0];
      var i :| OccursAt(s, text, i);
      var n := if s[..7] == "http://" then 4 else 5;
      assert s[n..n + 3] == "://";
      OccursTransitive("://", s, text, n, i);
    }
  }
}
