/** Splitting long replies into WhatsApp-sized messages. */
module Chunker {
  import opened Prelude

  const WHATSAPP_TEXT_LIMIT := 4096

  /** What Python's argument-less `rstrip` removes (the white space of the Basic Latin and Latin-1 blocks, the
      Unicode spaces and separators). */
  predicate Space(c: char) {
    || '\t' <= c <= '\r' || '\U{1c}' <= c <= ' ' || c == '\U{85}' || c == '\U{a0}' || c == '\U{1680}'
    || '\U{2000}' <= c <= '\U{200a}' || c == '\U{2028}' || c == '\U{2029}' || c == '\U{202f}' || c == '\U{205f}'
    || c == '\U{3000}'
  }

  ghost predicate Blank(s: string) {
    forall k :: 0 <= k < |s| ==> Space(s[k])
  }

  predicate OccursAt(s: string, pat: string, i: int) {
    0 <= i && i + |pat| <= |s| && s[i..i + |pat|] == pat
  }

  /** The last index at which `pat` occurs in `s`, or -1. */
  function RFind(s: string, pat: string): (i: int)
    ensures i == -1 || OccursAt(s, pat, i)
    ensures forall j :: OccursAt(s, pat, j) ==> j <= i
  {
    RFindFrom(s, pat, |s| - |pat|)
  }

  function RFindFrom(s: string, pat: string, from: int): (i: int)
    requires from + |pat| <= |s|
    ensures i == -1 || OccursAt(s, pat, i)
    ensures forall j :: OccursAt(s, pat, j) && j <= from ==> j <= i
    decreases from + 1
  {
    if from < 0 then -1
    else if OccursAt(s, pat, from) then from
    else RFindFrom(s, pat, from - 1)
  }

  function RStrip(s: string): string {
    if s != "" && Space(s[|s| - 1]) then RStrip(s[..|s| - 1]) else s
  }

  function LStripNewlines(s: string): string {
    if s != "" && s[0] == '\n' then LStripNewlines(s[1..]) else s
  }

  /** The last break of any kind, or -1. */
  function LastBreak(s: string): int {
    Max(RFind(s, "\n\n"), Max(RFind(s, "\n"), RFind(s, " ")))
  }

  /** Where the first chunk of an overlong text ends. */
  function Cut(text: string, limit: nat): (cut: nat)
    requires |text| > limit
    ensures cut <= limit
  {
    var cut := LastBreak(text[..limit + 1]);
    if cut < limit / 2 then limit else cut
  }

  function Chunk(text: string, limit: nat): string
    requires |text| > limit
  {
    RStrip(text[..Cut(text, limit)])
  }

  /** What is left after one turn of the loop. */
  function Rest(text: string, limit: nat): string
    requires |text| > limit
  {
    LStripNewlines(text[Cut(text, limit)..])
  }

  // --- Where a chunk ends, and progress ----------------------------------------------------

  predicate Break(c: char) { c == '\n' || c == ' ' }

  lemma SingleOccurs(s: string, c: char, i: int)
    ensures OccursAt(s, [c], i) <==> 0 <= i < |s| && s[i] == c
  {
    if 0 <= i < |s| {
      assert s[i..i + 1] == [s[i]];
    }
  }

  lemma DoubleIsNewline(s: string, i: int)
    requires OccursAt(s, "\n\n", i)
    ensures OccursAt(s, "\n", i + 1)
  {
    assert s[i..i + 2][1] == s[i + 1];
    SingleOccurs(s, '\n', i + 1);
  }

  lemma LastBreakRule(s: string)
    ensures LastBreak(s) == -1 || (0 <= LastBreak(s) < |s| && Break(s[LastBreak(s)]))
    ensures forall j :: LastBreak(s) < j < |s| ==> !Break(s[j])
  {
    SingleOccurs(s, '\n', RFind(s, "\n"));
    SingleOccurs(s, ' ', RFind(s, " "));
    if RFind(s, "\n\n") != -1 {
      DoubleIsNewline(s, RFind(s, "\n\n"));
    }
    forall j | LastBreak(s) < j < |s|
      ensures !Break(s[j])
    {
      SingleOccurs(s, '\n', j);
      SingleOccurs(s, ' ', j);
    }
  }

  /** A chunk ends at the last line break or space of the window, whatever its kind, unless that lies in the
      first half; then it is cut hard at the limit. */
  lemma CutRule(text: string, limit: nat)
    requires |text| > limit
    ensures var cut := Cut(text, limit);
            || (limit / 2 <= cut && Break(text[cut]) && forall j :: cut < j <= limit ==> !Break(text[j]))
            || (cut == limit && forall j :: limit / 2 <= j <= limit ==> !Break(text[j]))
  {
    var window := text[..limit + 1];
    LastBreakRule(window);
    assert forall j :: 0 <= j <= limit ==> window[j] == text[j];
  }

  lemma {:induction false} LStripShape(s: string) returns (n: nat)
    ensures n <= |s| && LStripNewlines(s) == s[n..] && Blank(s[..n])
    ensures n > 0 <==> s != "" && s[0] == '\n'
    ensures forall k :: 0 <= k < n ==> s[k] == '\n'
    ensures n == |s| || s[n] != '\n'
  {
    if s != "" && s[0] == '\n' {
      var m := LStripShape(s[1..]);
      n := m + 1;
      assert s[n..] == s[1..][m..];
      assert forall k :: 1 <= k < n ==> s[k] == s[1..][..m][k - 1] == s[1..][k - 1];
    } else {
      n := 0;
    }
  }

  /** The rest is a proper tail, up to line breaks and one character cut off. */
  lemma RestShape(text: string, limit: nat) returns (p: nat)
    requires |text| > limit
    ensures p <= |text| && Rest(text, limit) == text[p..] && Cut(text, limit) <= p
    ensures forall k :: Cut(text, limit) <= k < p ==> text[k] == '\n'
  {
    var cut := Cut(text, limit);
    var n := LStripShape(text[cut..]);
    p := cut + n;
    assert text[p..] == text[cut..][n..];
    assert forall k :: cut <= k < p ==> text[k] == text[cut..][k - cut];
  }

  /** One turn always shortens the text, except for a limit below 2: with a limit of 1 when the text starts with
      a space that is not followed by another break, with a limit of 0 unless it starts with a newline. */
  lemma ProgressIff(text: string, limit: nat)
    requires |text| > limit
    ensures |Rest(text, limit)| < |text| <==>
            limit >= 2
            || (limit == 1 && !(text[0] == ' ' && !Break(text[1])))
            || (limit == 0 && text[0] == '\n')
    ensures |Rest(text, limit)| < |text| || Rest(text, limit) == text
  {
    var cut := Cut(text, limit);
    CutRule(text, limit);
    var n := LStripShape(text[cut..]);
    assert |Rest(text, limit)| == |text| - cut - n;
    if cut == 0 {
      assert text[0..] == text;
    }
  }

  // --- Termination -------------------------------------------------------------------------

  /** What a caller can check beforehand: with a limit of 1, no space before a character that is no break; with a
      limit of 0, line breaks only. */
  predicate Terminates(text: string, limit: nat) {
    || |text| <= limit
    || limit >= 2
    || (limit == 1 && forall i :: 0 <= i < |text| - 1 && text[i] == ' ' ==> Break(text[i + 1]))
    || (limit == 0 && forall i :: 0 <= i < |text| ==> text[i] == '\n')
  }

  /** The text that remains after `n` turns of the loop. */
  function Left(text: string, limit: nat, n: nat): string {
    if n == 0 then text
    else
      var before := Left(text, limit, n - 1);
      if |before| <= limit then before else Rest(before, limit)
  }

  /** A turn neither removes what keeps the loop from ending nor brings it about. */
  lemma TurnKeepsTerminates(text: string, limit: nat)
    requires |text| > limit
    ensures Terminates(Rest(text, limit), limit) <==> Terminates(text, limit)
    ensures Terminates(text, limit) ==> |Rest(text, limit)| < |text|
  {
    ProgressIff(text, limit);
    CutRule(text, limit);
    var p := RestShape(text, limit);
    var rest := Rest(text, limit);
    if limit == 1 {
      assert forall i :: 0 <= i < |rest| ==> rest[i] == text[p + i];
      forall i | 0 <= i < |text| - 1 && text[i] == ' ' && !Break(text[i + 1])
        ensures i >= p && !Terminates(rest, limit)
      {
        assert rest[i - p] == ' ' && !Break(rest[i - p + 1]);
      }
    } else if limit == 0 {
      assert forall i :: 0 <= i < |rest| ==> rest[i] == text[p + i];
    }
  }

  lemma {:induction false} LeftKeepsTerminates(text: string, limit: nat, n: nat)
    ensures Terminates(Left(text, limit, n), limit) <==> Terminates(text, limit)
    ensures Terminates(text, limit) ==> |Left(text, limit, n)| <= Max(limit, |text| - n)
  {
    if n > 0 {
      LeftKeepsTerminates(text, limit, n - 1);
      var before := Left(text, limit, n - 1);
      if |before| > limit {
        TurnKeepsTerminates(before, limit);
      }
    }
  }

  /** The loop ends exactly for those texts and limits; for any limit of 2 or more it always does. */
  lemma TerminatesIff(text: string, limit: nat)
    ensures (exists n: nat :: |Left(text, limit, n)| <= limit) <==> Terminates(text, limit)
  {
    forall n: nat | |Left(text, limit, n)| <= limit
      ensures Terminates(text, limit)
    {
      LeftKeepsTerminates(text, limit, n);
    }
    if Terminates(text, limit) {
      LeftKeepsTerminates(text, limit, |text|);
      assert |Left(text, limit, |text|)| <= limit;
    }
  }

  // --- Content -----------------------------------------------------------------------------

  /** `text` is the chunks in order, separated, preceded and followed by white space only. */
  ghost predicate Woven(text: string, chunks: seq<string>) {
    exists gaps: seq<string> :: Weaves(gaps, chunks, text)
  }

  ghost predicate Weaves(gaps: seq<string>, chunks: seq<string>, text: string) {
    && |gaps| == |chunks| + 1
    && (forall k :: 0 <= k < |gaps| ==> Blank(gaps[k]))
    && text == Weave(gaps, chunks)
  }

  function Weave(gaps: seq<string>, chunks: seq<string>): string
    requires |gaps| == |chunks| + 1
  {
    if chunks == [] then gaps[0]
    else Weave(gaps[..|chunks|], chunks[..|chunks| - 1]) + chunks[|chunks| - 1] + gaps[|chunks|]
  }

  lemma {:induction false} RStripShape(s: string)
    ensures |RStrip(s)| <= |s| && s[..|RStrip(s)|] == RStrip(s) && Blank(s[|RStrip(s)|..])
    ensures RStrip(s) != "" ==> !Space(RStrip(s)[|RStrip(s)| - 1])
  {
    if s != "" && Space(s[|s| - 1]) {
      var init := s[..|s| - 1];
      RStripShape(init);
      var n := |RStrip(s)|;
      assert s[..n] == init[..n];
      assert s[n..] == init[n..] + [s[|s| - 1]];
    }
  }

  lemma BlankJoin(a: string, b: string)
    requires Blank(a) && Blank(b)
    ensures Blank(a + b)
  {
  }

  /** Appending a chunk and the white space after it. */
  lemma WovenGrows(text: string, chunks: seq<string>, chunk: string, gap: string)
    requires Woven(text, chunks) && Blank(gap)
    ensures Woven(text + chunk + gap, chunks + [chunk])
  {
    var gaps :| Weaves(gaps, chunks, text);
    var gaps', chunks' := gaps + [gap], chunks + [chunk];
    assert gaps'[..|chunks'|] == gaps && chunks'[..|chunks'| - 1] == chunks;
    assert Weaves(gaps', chunks', text + chunk + gap);
  }

  /** Appending white space alone. */
  lemma WovenPads(text: string, chunks: seq<string>, gap: string)
    requires Woven(text, chunks) && Blank(gap)
    ensures Woven(text + gap, chunks)
  {
    var gaps :| Weaves(gaps, chunks, text);
    var n := |chunks|;
    var gaps' := gaps[..n] + [gaps[n] + gap];
    BlankJoin(gaps[n], gap);
    assert gaps'[..n] == gaps[..n];
    if n > 0 {
      assert Weave(gaps', chunks) == Weave(gaps[..n], chunks[..n - 1]) + chunks[n - 1] + (gaps[n] + gap);
    }
    assert Weave(gaps', chunks) == text + gap;
    assert Weaves(gaps', chunks, text + gap);
  }

  /** The final filter `[c for c in chunks if c]`. */
  function NonEmpty(chunks: seq<string>): seq<string> {
    if chunks == [] then []
    else NonEmpty(chunks[..|chunks| - 1]) + (if chunks[|chunks| - 1] != "" then [chunks[|chunks| - 1]] else [])
  }

  lemma {:induction false} NonEmptyKeeps(gaps: seq<string>, chunks: seq<string>, text: string)
    requires Weaves(gaps, chunks, text)
    ensures Woven(text, NonEmpty(chunks))
    ensures forall c :: c in NonEmpty(chunks) <==> c in chunks && c != ""
  {
    var n := |chunks|;
    if n == 0 {
      assert Weaves(gaps, [], text);
    } else {
      var last, inner := chunks[n - 1], Weave(gaps[..n], chunks[..n - 1]);
      NonEmptyKeeps(gaps[..n], chunks[..n - 1], inner);
      assert chunks == chunks[..n - 1] + [last];
      if last != "" {
        WovenGrows(inner, NonEmpty(chunks[..n - 1]), last, gaps[n]);
      } else {
        WovenPads(inner, NonEmpty(chunks[..n - 1]), gaps[n]);
        assert text == inner + "" + gaps[n] == inner + gaps[n];
        assert NonEmpty(chunks) == NonEmpty(chunks[..n - 1]);
      }
    }
  }

  /** What one turn takes off the front: a chunk, then white space. */
  lemma TurnShape(text: string, limit: nat) returns (gap: string)
    requires |text| > limit
    ensures text == Chunk(text, limit) + gap + Rest(text, limit) && Blank(gap) && |Chunk(text, limit)| <= limit
    // Neither does the chunk end in white space, nor the rest begin with a line break.
    ensures Chunk(text, limit) != "" ==> !Space(Chunk(text, limit)[|Chunk(text, limit)| - 1])
    ensures Rest(text, limit) != "" ==> Rest(text, limit)[0] != '\n'
  {
    gap := SplitShape(text[..Cut(text, limit)], text[Cut(text, limit)..]);
    assert text == text[..Cut(text, limit)] + text[Cut(text, limit)..];
    RStripShape(text[..Cut(text, limit)]);
    var n := LStripShape(text[Cut(text, limit)..]);
  }

  /** Python's white space, character by character. */
  lemma SpaceIsListed(c: char)
    ensures Space(c) <==>
            c in "\t\n\U{b}\U{c}\r\U{1c}\U{1d}\U{1e}\U{1f} \U{85}\U{a0}\U{1680}" +
                 "\U{2000}\U{2001}\U{2002}\U{2003}\U{2004}\U{2005}\U{2006}\U{2007}\U{2008}\U{2009}\U{200a}" +
                 "\U{2028}\U{2029}\U{202f}\U{205f}\U{3000}"
  {
  }

  lemma SplitShape(head: string, tail: string) returns (gap: string)
    ensures head + tail == RStrip(head) + gap + LStripNewlines(tail) && Blank(gap)
  {
    RStripShape(head);
    var m := |RStrip(head)|;
    var n := LStripShape(tail);
    gap := head[m..] + tail[..n];
    BlankJoin(head[m..], tail[..n]);
    Rejoin(head, tail, m, n);
  }

  lemma Rejoin(head: string, tail: string, m: nat, n: nat)
    requires m <= |head| && n <= |tail|
    ensures head + tail == head[..m] + (head[m..] + tail[..n]) + tail[n..]
  {
  }

  lemma Regroup(taken: string, chunk: string, gap: string, rest: string)
    ensures taken + (chunk + gap + rest) == taken + chunk + gap + rest
  {
  }

  /** The chunks, one turn after the other, before the final filter. */
  function Turns(text: string, limit: nat): seq<string>
    requires Terminates(text, limit)
    decreases |text|
  {
    if text == "" then []
    else if |text| <= limit then [text]
    else
      TurnKeepsTerminates(text, limit);
      [Chunk(text, limit)] + Turns(Rest(text, limit), limit)
  }

  /** `text` is split into `taken`, woven from the chunks so far, and the `remaining` text. */
  ghost predicate Split(text: string, limit: nat, chunks: seq<string>, taken: string, remaining: string) {
    && Terminates(text, limit) && Terminates(remaining, limit)
    && text == taken + remaining && Woven(taken, chunks)
    && Turns(text, limit) == chunks + Turns(remaining, limit)
    && forall c :: c in chunks ==> |c| <= limit
  }

  lemma SplitStart(text: string, limit: nat)
    requires Terminates(text, limit)
    ensures Split(text, limit, [], "", text)
  {
    assert Weaves([""], [], "");
  }

  lemma SplitTurn(text: string, limit: nat, chunks: seq<string>, taken: string, remaining: string) returns (taken': string)
    requires |remaining| > limit && Split(text, limit, chunks, taken, remaining)
    ensures Split(text, limit, chunks + [Chunk(remaining, limit)], taken', Rest(remaining, limit))
  {
    var chunk, rest := Chunk(remaining, limit), Rest(remaining, limit);
    TurnKeepsTerminates(remaining, limit);
    var gap := TurnShape(remaining, limit);
    WovenGrows(taken, chunks, chunk, gap);
    Regroup(taken, chunk, gap, rest);
    OneTurnLess(text, limit, chunks, remaining);
    taken' := taken + chunk + gap;
  }

  lemma OneTurnLess(text: string, limit: nat, chunks: seq<string>, remaining: string)
    requires |remaining| > limit && Terminates(text, limit) && Terminates(remaining, limit)
    requires Turns(text, limit) == chunks + Turns(remaining, limit)
    ensures Terminates(Rest(remaining, limit), limit)
    ensures Turns(text, limit) == chunks + [Chunk(remaining, limit)] + Turns(Rest(remaining, limit), limit)
  {
    TurnsUnfold(remaining, limit);
    Reassociate(chunks, Chunk(remaining, limit), Turns(Rest(remaining, limit), limit));
  }

  lemma TurnsUnfold(text: string, limit: nat)
    requires Terminates(text, limit) && |text| > limit
    ensures Terminates(Rest(text, limit), limit)
    ensures Turns(text, limit) == [Chunk(text, limit)] + Turns(Rest(text, limit), limit)
  {
    TurnKeepsTerminates(text, limit);
  }

  lemma Reassociate(chunks: seq<string>, chunk: string, rest: seq<string>)
    ensures chunks + ([chunk] + rest) == chunks + [chunk] + rest
  {
  }

  lemma SplitLast(text: string, limit: nat, chunks: seq<string>, taken: string, remaining: string)
    requires 0 < |remaining| <= limit && Split(text, limit, chunks, taken, remaining)
    ensures Split(text, limit, chunks + [remaining], text, "")
  {
    WovenGrows(taken, chunks, remaining, "");
    assert text + "" == text;
  }

  /** The while loop. */
  method SplitLoop(text: string, limit: nat) returns (chunks: seq<string>)
    requires Terminates(text, limit)
    ensures Split(text, limit, chunks, text, "")
  {
    chunks := [];
    var remaining := text;
    ghost var taken := "";
    SplitStart(text, limit);
    while remaining != ""
      invariant Split(text, limit, chunks, taken, remaining)
      decreases |remaining|
    {
      if |remaining| <= limit {
        SplitLast(text, limit, chunks, taken, remaining);
        chunks := chunks + [remaining];
        return;
      }
      taken := SplitTurn(text, limit, chunks, taken, remaining);
      TurnKeepsTerminates(remaining, limit);
      var window := remaining[..limit + 1];
      var cut := Max(RFind(window, "\n\n"), Max(RFind(window, "\n"), RFind(window, " ")));
      if cut < limit / 2 {
        cut := limit;
      }
      chunks := chunks + [RStrip(remaining[..cut])];
      remaining := LStripNewlines(remaining[cut..]);
    }
    assert taken + "" == taken;
  }

  ghost predicate AllWithin(parts: seq<string>, size: nat) {
    forall k :: 0 <= k < |parts| ==> |parts[k]| <= size
  }

  /** The chunks of an overlong text are the non-empty turns; their content and size are what they should be. */
  method ChunkText(text: string, limit: nat) returns (chunks: seq<string>)
    requires Terminates(text, limit)
    ensures chunks == if |text| <= limit then [text] else NonEmpty(Turns(text, limit))
    ensures |text| > limit ==> AllWithin(chunks, limit) && "" !in chunks
    ensures Woven(text, chunks)
  {
    if |text| <= limit {
      WholeIsWoven(text);
      return [text];
    }
    chunks := SplitLoop(text, limit);
    assert chunks == Turns(text, limit);
    ghost var gaps :| Weaves(gaps, chunks, text);
    NonEmptyKeeps(gaps, chunks, text);
    chunks := NonEmpty(chunks);
    assert forall k :: 0 <= k < |chunks| ==> chunks[k] in chunks;
  }

  lemma WholeIsWoven(text: string)
    ensures Woven(text, [text])
  {
    assert Weaves([""], [], "");
    WovenGrows("", [], text, "");
    assert "" + text + "" == text && [] + [text] == [text];
  }

  // --- Part markers ------------------------------------------------------------------------

  function Decimal(n: nat): string {
    if n < 10 then ["0123456789"[n]] else Decimal(n / 10) + ["0123456789"[n % 10]]
  }

  function Pow10(k: nat): nat {
    if k == 0 then 1 else 10 * Pow10(k - 1)
  }

  lemma {:induction false} DecimalLength(n: nat, k: nat)
    requires 1 <= k
    ensures |Decimal(n)| <= k <==> n < Pow10(k)
  {
    if n < 10 {
      Pow10AtLeast(k);
    } else if k == 1 {
      assert Pow10(1) == 10;
      assert |Decimal(n / 10)| >= 1;
    } else {
      DecimalLength(n / 10, k - 1);
      assert Pow10(k) == 10 * Pow10(k - 1);
    }
  }

  lemma {:induction false} Pow10AtLeast(k: nat)
    requires 1 <= k
    ensures Pow10(k) >= 10
  {
    if k > 1 {
      Pow10AtLeast(k - 1);
    } else {
      assert Pow10(1) == 10 * Pow10(0);
    }
  }

  function Marked(i: nat, total: nat, chunk: string): string {
    "(" + Decimal(i) + "/" + Decimal(total) + ")\n\n" + chunk
  }

  /** A marked part of at most 4064 characters fits exactly while its two numbers have at most 27 digits in all. */
  lemma MarkedFits(i: nat, total: nat, chunk: string)
    requires i <= total && |chunk| <= WHATSAPP_TEXT_LIMIT - 32
    ensures total < Pow10(13) ==> |Marked(i, total, chunk)| <= WHATSAPP_TEXT_LIMIT
    ensures |chunk| == WHATSAPP_TEXT_LIMIT - 32 ==>
              (|Marked(i, total, chunk)| <= WHATSAPP_TEXT_LIMIT <==> |Decimal(i)| + |Decimal(total)| <= 27)
  {
    DecimalLength(i, 13);
    DecimalLength(total, 13);
  }

  // --- Reading markers back ----------------------------------------------------------------

  /** The digit's value, or 10 for any other character. */
  function DigitValue(c: char): nat {
    if '0' <= c <= '9' then (c as int) - ('0' as int) else 10
  }

  /** The number a string of digits denotes. */
  function ReadDecimal(s: string): nat {
    if s == "" then 0 else 10 * ReadDecimal(s[..|s| - 1]) + DigitValue(s[|s| - 1])
  }

  lemma {:induction false} DecimalReadsBack(n: nat)
    ensures ReadDecimal(Decimal(n)) == n
    ensures Decimal(n) != "" && forall k :: 0 <= k < |Decimal(n)| ==> '0' <= Decimal(n)[k] <= '9'
  {
    if n >= 10 {
      DecimalReadsBack(n / 10);
      var d := "0123456789"[n % 10];
      DigitReadsBack(n % 10);
      assert Decimal(n) == Decimal(n / 10) + [d];
      assert Decimal(n)[..|Decimal(n)| - 1] == Decimal(n / 10);
    } else {
      DigitReadsBack(n);
      assert Decimal(n)[..0] == "";
    }
  }

  lemma DigitReadsBack(d: nat)
    requires d < 10
    ensures DigitValue("0123456789"[d]) == d && '0' <= "0123456789"[d] <= '9'
  {
  }

  /** The first position of `c`, or the length. */
  function Position(s: string, c: char): nat {
    if s == "" || s[0] == c then 0 else 1 + Position(s[1..], c)
  }

  lemma {:induction false} PositionAfter(a: string, c: char, b: string)
    requires forall k :: 0 <= k < |a| ==> a[k] != c
    ensures Position(a + [c] + b, c) == |a|
  {
    if a == "" {
      assert a + [c] + b == [c] + b;
    } else {
      PositionAfter(a[1..], c, b);
      assert (a + [c] + b)[1..] == a[1..] + [c] + b;
    }
  }

  /** The part number, the total and the text of a marked message. */
  datatype Part = Part(number: nat, total: nat, text: string)

  /** What stands before and after the first `c`. */
  function SplitAt(s: string, c: char): Option<(string, string)> {
    var at := Position(s, c);
    if at >= |s| then None else Some((s[..at], s[at + 1..]))
  }

  lemma SplitsThere(a: string, c: char, b: string)
    requires forall k :: 0 <= k < |a| ==> a[k] != c
    ensures SplitAt(a + [c] + b, c) == Some((a, b))
  {
    PositionAfter(a, c, b);
    var s := a + [c] + b;
    assert s[..|a|] == a && s[|a| + 1..] == b;
  }

  /** Read "(number/total)", two line breaks and the text. */
  function ReadPart(message: string): Option<Part> {
    var front := SplitAt(message, '/');
    if front.None? || front.value.0 == "" then None
    else
      var back := SplitAt(front.value.1, ')');
      if back.None? || |back.value.1| < 2 then None
      else Some(Part(ReadDecimal(front.value.0[1..]), ReadDecimal(back.value.0), back.value.1[2..]))
  }

  /** A marked message says which part of how many it is, and carries that part. */
  lemma MarkedReadsBack(i: nat, total: nat, chunk: string)
    ensures ReadPart(Marked(i, total, chunk)) == Some(Part(i, total, chunk))
  {
    DecimalReadsBack(i);
    DecimalReadsBack(total);
    PartReadsBack(Decimal(i), Decimal(total), chunk);
  }

  lemma PartReadsBack(a: string, b: string, chunk: string)
    requires forall k :: 0 <= k < |a| ==> '0' <= a[k] <= '9'
    requires forall k :: 0 <= k < |b| ==> '0' <= b[k] <= '9'
    ensures ReadPart("(" + a + "/" + b + ")\n\n" + chunk) == Some(Part(ReadDecimal(a), ReadDecimal(b), chunk))
  {
    var rest := "\n\n" + chunk;
    var front, back := "(" + a, b + [')'] + rest;
    SplitsThere(front, '/', back);
    SplitsThere(b, ')', rest);
    assert front[1..] == a && rest[2..] == chunk;
    assert "(" + a + "/" + b + ")\n\n" + chunk == front + ['/'] + back;
  }

  function Message(i: nat, chunks: seq<string>): string
    requires i < |chunks|
  {
    if |chunks| > 1 then Marked(i + 1, |chunks|, chunks[i]) else chunks[i]
  }

  /** The bodies handed to `send_text` for the first `n` parts, in order. */
  function Messages(chunks: seq<string>, n: nat): seq<string>
    requires n <= |chunks|
  {
    if n == 0 then [] else Messages(chunks, n - 1) + [Message(n - 1, chunks)]
  }

  lemma MessageFits(i: nat, chunks: seq<string>)
    requires i < |chunks| < Pow10(13) && AllWithin(chunks, WHATSAPP_TEXT_LIMIT - 32)
    ensures |Message(i, chunks)| <= WHATSAPP_TEXT_LIMIT
  {
    MarkedFits(i + 1, |chunks|, chunks[i]);
  }

  /** Every message is within the limit, as long as there are fewer than 10^13 of them. */
  lemma {:induction false} MessagesFit(chunks: seq<string>, n: nat)
    requires n <= |chunks| < Pow10(13) && AllWithin(chunks, WHATSAPP_TEXT_LIMIT - 32)
    ensures |Messages(chunks, n)| == n && AllWithin(Messages(chunks, n), WHATSAPP_TEXT_LIMIT)
  {
    if n > 0 {
      MessagesFit(chunks, n - 1);
      MessageFits(n - 1, chunks);
    }
  }

  lemma {:induction false} MessagesAt(chunks: seq<string>, n: nat, k: nat)
    requires k < n <= |chunks|
    ensures |Messages(chunks, n)| == n && Messages(chunks, n)[k] == Message(k, chunks)
  {
    if k < n - 1 {
      MessagesAt(chunks, n - 1, k);
    } else if n > 1 {
      MessagesAt(chunks, n - 1, 0);
    }
  }

  /** Part `k` of several says that it is number k+1 of them, and carries its chunk. */
  ghost predicate Numbered(sent: seq<string>, chunks: seq<string>) {
    && |sent| == |chunks|
    && forall k :: 0 <= k < |sent| ==> ReadPart(sent[k]) == Some(Part(k + 1, |chunks|, chunks[k]))
  }

  lemma MessageReadsBack(chunks: seq<string>, k: nat)
    requires k < |chunks| && |chunks| > 1
    ensures |Messages(chunks, |chunks|)| == |chunks|
    ensures ReadPart(Messages(chunks, |chunks|)[k]) == Some(Part(k + 1, |chunks|, chunks[k]))
  {
    MessagesAt(chunks, |chunks|, k);
    MarkedReadsBack(k + 1, |chunks|, chunks[k]);
  }

  lemma MessagesReadBack(chunks: seq<string>)
    requires |chunks| > 1
    ensures Numbered(Messages(chunks, |chunks|), chunks)
  {
    MessagesAt(chunks, |chunks|, 0);
    forall k | 0 <= k < |chunks|
      ensures ReadPart(Messages(chunks, |chunks|)[k]) == Some(Part(k + 1, |chunks|, chunks[k]))
    {
      MessageReadsBack(chunks, k);
    }
  }

  lemma SingleMessage(chunks: seq<string>)
    requires |chunks| <= 1
    ensures Messages(chunks, |chunks|) == chunks
  {
    if |chunks| == 1 {
      assert Messages(chunks, 0) == [];
    }
  }

  /** The sending loop. */
  method MarkParts(chunks: seq<string>) returns (sent: seq<string>)
    ensures sent == Messages(chunks, |chunks|)
  {
    sent := [];
    for i := 0 to |chunks|
      invariant sent == Messages(chunks, i)
    {
      sent := sent + [if |chunks| > 1 then Marked(i + 1, |chunks|, chunks[i]) else chunks[i]];
    }
  }

  method SendLongText(text: string) returns (sent: seq<string>, chunks: seq<string>)
    ensures |text| <= 4096 ==> sent == chunks == [text]
    ensures |text| > 4096 ==> AllWithin(chunks, 4064)
    ensures |chunks| < Pow10(13) ==> AllWithin(sent, 4096)
    // The messages say which part of how many each of them is, in order.
    ensures |text| > 4096 && |chunks| > 1 ==> Numbered(sent, chunks)
    ensures |text| > 4096 && |chunks| <= 1 ==> sent == chunks
    ensures |text| <= WHATSAPP_TEXT_LIMIT ==> sent == chunks == [text]
    ensures |text| > WHATSAPP_TEXT_LIMIT ==>
              && chunks == NonEmpty(Turns(text, WHATSAPP_TEXT_LIMIT - 32)) && "" !in chunks
              && sent == Messages(chunks, |chunks|)
    ensures Woven(text, chunks)
    ensures |chunks| < Pow10(13) ==> AllWithin(sent, WHATSAPP_TEXT_LIMIT)
  {
    if |text| <= WHATSAPP_TEXT_LIMIT {
      WholeIsWoven(text);
      return [text], [text];
    }
    chunks := ChunkText(text, WHATSAPP_TEXT_LIMIT - 32);
    sent := MarkParts(chunks);
    if |chunks| > 1 {
      MessagesReadBack(chunks);
    } else {
      SingleMessage(chunks);
    }
    if |chunks| < Pow10(13) {
      MessagesFit(chunks, |chunks|);
    }
  }
}
