/**
  The text chunker of the embedding service (`_split_text_into_chunks`): a text longer
  than the chunk size is cut into windows of at most `chunkSize` characters; a window
  is shortened to end just after its last sentence end (". ", "! " or "? ") when that
  end lies past 70% of the window; each next window starts `overlap` characters before
  the previous one ended; the pieces are finally stripped and blank ones dropped.

  `RawFrom` is the loop unrolled into a recursive function, `Spans` gives the start and
  end index of every raw piece, `SpansEnds` and `SpanAt` connect the two, and `Chunks`
  is what the service returns. The method `SplitTextIntoChunks` is the source's loop,
  proved to compute `Chunks`.
 */
module Chunker {
  import opened Text

  /** The defaults of `chunk_size` and `overlap`, the only values the service uses. */
  const DefaultChunkSize: nat := 500
  const DefaultOverlap: nat := 50

  /**
    Parameters for which every window ends more than `overlap` characters after it
    starts, so that the loop makes progress. The source's guard `last > chunk_size * 0.7`
    is modelled as the integer test `10 * last > 7 * chunk_size`. The two agree at the
    default size, where the double `500 * 0.7` is exactly `350.0`; where the product is not
    exact they can differ (in doubles `30 * 0.7` is `20.999999999999996`, so `last == 21`
    passes the source's guard and not the model's).
   */
  predicate ValidParams(chunkSize: nat, overlap: nat) {
    10 * overlap < 7 * chunkSize
  }

  lemma DefaultParamsValid()
    ensures ValidParams(DefaultChunkSize, DefaultOverlap)
  {
  }

  /** A two-character sentence end (". ", "! " or "? ") starts at index `j` of `w`. */
  predicate IsSentenceEnd(w: string, j: int) {
    0 <= j && j + 2 <= |w| && (w[j] == '.' || w[j] == '!' || w[j] == '?') && w[j + 1] == ' '
  }

  /** A sentence end is an occurrence of one of the three two-character patterns. */
  lemma SentenceEndOccurs(w: string, j: int)
    ensures IsSentenceEnd(w, j) <==> OccursAt(w, ". ", j) || OccursAt(w, "! ", j) || OccursAt(w, "? ", j)
  {
    if 0 <= j && j + 2 <= |w| {
      var t := w[j..j + 2];
      assert t == [w[j], w[j + 1]];
    }
  }

  function Max3(a: int, b: int, c: int): (m: int)
    ensures (m == a || m == b || m == c) && a <= m && b <= m && c <= m
  {
    if a >= b && a >= c then a else if b >= c then b else c
  }

  /** `max(w.rfind('. '), w.rfind('! '), w.rfind('? '))`: the source's way of finding the last sentence end. */
  function LastSentenceEnd(w: string): (r: int)
    ensures r == -1 || (0 <= r && r + 2 <= |w|)
  {
    Max3(RFind(w, ". "), RFind(w, "! "), RFind(w, "? "))
  }

  /** `LastSentenceEnd` finds the last sentence end, and -1 exactly when there is none. */
  lemma LastSentenceEndIsLast(w: string)
    ensures var r := LastSentenceEnd(w);
      && (r == -1 <==> forall j :: !IsSentenceEnd(w, j))
      && (r != -1 ==> IsSentenceEnd(w, r) && forall j :: r < j ==> !IsSentenceEnd(w, j))
  {
    RFindIsLast(w, ". ");
    RFindIsLast(w, "! ");
    RFindIsLast(w, "? ");
    forall j ensures IsSentenceEnd(w, j) <==> OccursAt(w, ". ", j) || OccursAt(w, "! ", j) || OccursAt(w, "? ", j) {
      SentenceEndOccurs(w, j);
    }
    var a, b, c := RFind(w, ". "), RFind(w, "! "), RFind(w, "? ");
    var r := LastSentenceEnd(w);
    assert r == Max3(a, b, c);
    if r == -1 {
      assert a == -1 && b == -1 && c == -1;
    } else {
      assert r == a || r == b || r == c;
      assert IsSentenceEnd(w, r);
    }
  }

  /**
    Scanning the text backwards from index `i` down to `start`: the offset from `start`
    of the first sentence end met, or -1 when there is none.
   */
  function LastMarkIn(text: string, start: nat, i: int): (r: int)
    requires i + 2 <= |text|
    ensures r == -1 || (0 <= r && start + r <= i)
    decreases i + 1 - start
  {
    if i < start then -1
    else if IsSentenceEnd(text, i) then i - start
    else LastMarkIn(text, start, i - 1)
  }

  lemma {:induction false} LastMarkInIsLast(text: string, start: nat, i: int)
    requires i + 2 <= |text|
    ensures var r := LastMarkIn(text, start, i);
      && (r == -1 ==> forall j :: start <= j <= i ==> !IsSentenceEnd(text, j))
      && (r != -1 ==> IsSentenceEnd(text, start + r) && forall j :: start + r < j <= i ==> !IsSentenceEnd(text, j))
    decreases i + 1 - start
  {
    if i >= start && !IsSentenceEnd(text, i) {
      LastMarkInIsLast(text, start, i - 1);
    }
  }

  /**
    Where the window starting at `start` is cut when it does not reach the end of the text:
    just after the window's last sentence end if that end starts more than 70% into the
    window, otherwise at the full window. `CutMatchesSource` shows that the source's
    computation with `rfind` and `max` on the window cuts at exactly this point.
   */
  function WindowEnd(text: string, start: nat, chunkSize: nat): (end: nat)
    requires 0 < chunkSize && start + chunkSize < |text|
    ensures start < end <= start + chunkSize
    ensures end == start + chunkSize || 7 * chunkSize < 10 * (end - start - 2)
  {
    CutScan(text, start, chunkSize, start + chunkSize - 2)
  }

  /** `WindowEnd`, scanning down from position `i` for the last sentence end at or after `start`. */
  function CutScan(text: string, start: nat, chunkSize: nat, i: int): (end: nat)
    requires 0 < chunkSize && start + chunkSize < |text| && i <= start + chunkSize - 2
    ensures start < end <= start + chunkSize
    ensures end == start + chunkSize || 7 * chunkSize < 10 * (end - start - 2)
    decreases i + 1 - start
  {
    if i < start then start + chunkSize
    else if IsSentenceEnd(text, i) then
      if 10 * (i - start) > 7 * chunkSize then i + 2 else start + chunkSize
    else CutScan(text, start, chunkSize, i - 1)
  }

  /** The scan cuts just after the last sentence end `LastMarkIn` finds, when it lies past 70% of the window. */
  lemma {:induction false} CutScanIsLastMark(text: string, start: nat, chunkSize: nat, i: int)
    requires 0 < chunkSize && start + chunkSize < |text| && i <= start + chunkSize - 2
    ensures var last := LastMarkIn(text, start, i);
      CutScan(text, start, chunkSize, i) == if 10 * last > 7 * chunkSize then start + last + 2 else start + chunkSize
    decreases i + 1 - start
  {
    if i >= start && !IsSentenceEnd(text, i) {
      CutScanIsLastMark(text, start, chunkSize, i - 1);
    }
  }

  /** A sentence end in the window is one in the text, shifted by the window's start. */
  lemma SentenceEndInWindow(text: string, start: nat, chunkSize: nat, j: int)
    requires start + chunkSize <= |text|
    ensures var w := text[start..start + chunkSize];
      IsSentenceEnd(w, j) <==> 0 <= j && j + 2 <= chunkSize && IsSentenceEnd(text, start + j)
  {
  }

  /**
    The source's cut, `start + last + 2` when `last > chunk_size * 0.7` and the full window
    otherwise, with `last` the `max` of the three `rfind` results on the window, is `WindowEnd`.
   */
  lemma CutMatchesSource(text: string, start: nat, chunkSize: nat)
    requires 0 < chunkSize && start + chunkSize < |text|
    ensures var last := LastSentenceEnd(text[start..start + chunkSize]);
      WindowEnd(text, start, chunkSize) == if 10 * last > 7 * chunkSize then start + last + 2 else start + chunkSize
  {
    var w := text[start..start + chunkSize];
    forall j ensures IsSentenceEnd(w, j) <==> 0 <= j && j + 2 <= chunkSize && IsSentenceEnd(text, start + j) {
      SentenceEndInWindow(text, start, chunkSize, j);
    }
    LastSentenceEndIsLast(w);
    LastMarkInIsLast(text, start, start + chunkSize - 2);
    CutScanIsLastMark(text, start, chunkSize, start + chunkSize - 2);
    var r, m := LastSentenceEnd(w), LastMarkIn(text, start, start + chunkSize - 2);
    if m != -1 {
      assert IsSentenceEnd(w, m);
    }
    if r != -1 {
      assert IsSentenceEnd(text, start + r);
    }
  }

  /** Span `sp` lies in `text` from `start` on, is non-empty and no longer than a window. */
  predicate InWindow(text: string, start: nat, chunkSize: nat, sp: (int, int)) {
    start <= sp.0 < sp.1 <= |text| && sp.1 - sp.0 <= chunkSize
  }

  /**
    Span `i` is not the last: its window did not reach the end of the text, it ends
    either at the full window or more than 70% into it plus the two characters of a
    sentence end, and the next span starts `overlap` before it ends.
   */
  predicate CutBefore(text: string, chunkSize: nat, overlap: nat, sp: seq<(int, int)>, i: int) {
    0 <= i < |sp| - 1 ==>
      && sp[i].0 + chunkSize < |text|
      && (sp[i].1 == sp[i].0 + chunkSize || 7 * chunkSize < 10 * (sp[i].1 - sp[i].0 - 2))
      && sp[i + 1].0 == sp[i].1 - overlap
  }

  /**
    The `(start, end)` index pairs of the raw pieces the loop appends, starting from `start`:
    the loop itself, unrolled. `SpansEnds` and `SpanAt` state what they are.
   */
  ghost function Spans(text: string, start: nat, chunkSize: nat, overlap: nat): seq<(int, int)>
    requires ValidParams(chunkSize, overlap)
    decreases |text| - start
  {
    if start >= |text| then []
    else if start + chunkSize >= |text| then [(start, |text|)]
    else
      var end := WindowEnd(text, start, chunkSize);
      [(start, end)] + Spans(text, end - overlap, chunkSize, overlap)
  }

  /** The pieces the loop appends from `start` on, before stripping: the text between the ends of each span. */
  ghost function RawFrom(text: string, start: nat, chunkSize: nat, overlap: nat): seq<string>
    requires ValidParams(chunkSize, overlap)
  {
    var sp := Spans(text, start, chunkSize, overlap);
    seq(|sp|, i requires 0 <= i < |sp| =>
      SpanAt(text, start, chunkSize, overlap, i);
      text[sp[i].0..sp[i].1])
  }

  /** The pieces the loop appends to `chunks`, before stripping. */
  ghost function RawChunks(text: string, chunkSize: nat, overlap: nat): seq<string>
    requires ValidParams(chunkSize, overlap)
  {
    RawFrom(text, 0, chunkSize, overlap)
  }

  /**
    There are no spans exactly when `start` is past the text, the first starts at `start`,
    and the last ends at the end of the text and is the only one whose window reaches it.
   */
  lemma {:induction false} SpansEnds(text: string, start: nat, chunkSize: nat, overlap: nat)
    requires ValidParams(chunkSize, overlap)
    ensures var sp := Spans(text, start, chunkSize, overlap);
      && (sp == [] <==> start >= |text|)
      && (sp != [] ==> sp[0].0 == start && sp[|sp| - 1].1 == |text| && sp[|sp| - 1].0 + chunkSize >= |text|)
    decreases |text| - start
  {
    if start < |text| && start + chunkSize < |text| {
      var sp := Spans(text, start, chunkSize, overlap);
      var end := WindowEnd(text, start, chunkSize);
      var next := end - overlap;
      assert start < next < |text|;
      var rest := Spans(text, next, chunkSize, overlap);
      SpansEnds(text, next, chunkSize, overlap);
      assert sp == [(start, end)] + rest;
      assert sp[|sp| - 1] == rest[|rest| - 1];
    }
  }

  /**
    Span `i` lies in the text after `start`, is non-empty and at most `chunkSize` long,
    and, when it is not the last, ends where `WindowEnd` cuts its window, with the next
    span starting `overlap` before that.
   */
  lemma {:induction false} SpanAt(text: string, start: nat, chunkSize: nat, overlap: nat, i: nat)
    requires ValidParams(chunkSize, overlap)
    requires i < |Spans(text, start, chunkSize, overlap)|
    ensures var sp := Spans(text, start, chunkSize, overlap);
      && InWindow(text, start, chunkSize, sp[i])
      && CutBefore(text, chunkSize, overlap, sp, i)
      && (i + 1 < |sp| ==> sp[i].1 == WindowEnd(text, sp[i].0, chunkSize))
    decreases i
  {
    if start + chunkSize < |text| {
      var sp := Spans(text, start, chunkSize, overlap);
      var end := WindowEnd(text, start, chunkSize);
      var rest := Spans(text, end - overlap, chunkSize, overlap);
      assert sp == [(start, end)] + rest;
      if i > 0 {
        SpanAt(text, end - overlap, chunkSize, overlap, i - 1);
        assert sp[i] == rest[i - 1];
        if i + 1 < |sp| {
          assert sp[i + 1] == rest[i];
        }
      } else if 1 < |sp| {
        SpansEnds(text, end - overlap, chunkSize, overlap);
        assert sp[1] == rest[0];
      }
    }
  }

  /** `[chunk.strip() for chunk in chunks if chunk.strip()]`. */
  function CleanChunks(chunks: seq<string>): (r: seq<string>)
    ensures |r| <= |chunks|
    decreases |chunks|
  {
    if chunks == [] then []
    else
      var t := Strip(Python, chunks[0]);
      (if t != [] then [t] else []) + CleanChunks(chunks[1..])
  }

  /** A piece as the final filter keeps it: non-empty, and neither starting nor ending with whitespace. */
  predicate Stripped(t: string) {
    t != [] && !IsPySpace(t[0]) && !IsPySpace(t[|t| - 1])
  }

  /** Every piece kept is stripped. */
  lemma {:induction false} CleanChunksStripped(chunks: seq<string>)
    ensures forall i :: 0 <= i < |CleanChunks(chunks)| ==> Stripped(CleanChunks(chunks)[i])
    decreases |chunks|
  {
    if chunks != [] {
      CleanChunksStripped(chunks[1..]);
      var t := Strip(Python, chunks[0]);
      var h := if t != [] then [t] else [];
      var r, tail := CleanChunks(chunks), CleanChunks(chunks[1..]);
      assert r == h + tail;
      forall i | 0 <= i < |r|
        ensures Stripped(r[i])
      {
        if i < |h| {
          assert r[i] == t;
          assert !IsSpace(Python, t[0]) && !IsSpace(Python, t[|t| - 1]);
        } else {
          assert r[i] == tail[i - |h|];
        }
      }
    }
  }

  /** What `_split_text_into_chunks` returns. */
  ghost function Chunks(text: string, chunkSize: nat, overlap: nat): (r: seq<string>)
    requires ValidParams(chunkSize, overlap)
    ensures |text| <= chunkSize ==> r == [text]
    ensures |text| > chunkSize ==> forall i :: 0 <= i < |r| ==> Stripped(r[i])
  {
    if |text| <= chunkSize then [text]
    else
      CleanChunksStripped(RawChunks(text, chunkSize, overlap));
      CleanChunks(RawChunks(text, chunkSize, overlap))
  }

  /**
    The body of the source's loop for a window that does not reach the end of the text:
    take the window, find its last sentence end with `rfind` and `max`, and cut just after
    it when it lies past 70% of the window.
   */
  method CutWindow(text: string, start: nat, chunkSize: nat) returns (end: nat, chunk: string)
    requires 0 < chunkSize && start + chunkSize < |text|
    ensures end == WindowEnd(text, start, chunkSize) && chunk == text[start..end]
  {
    end := start + chunkSize;
    chunk := text[start..end];
    var last := LastSentenceEnd(chunk);
    CutMatchesSource(text, start, chunkSize);
    if 10 * last > 7 * chunkSize {
      end := start + last + 2;
      chunk := text[start..end];
    }
  }

  /** The source's loop, with `raw` the Python list it appends to. */
  method SplitTextIntoChunks(text: string, chunkSize: nat, overlap: nat) returns (chunks: seq<string>)
    requires ValidParams(chunkSize, overlap)
    ensures chunks == Chunks(text, chunkSize, overlap)
  {
    if |text| <= chunkSize {
      return [text];
    }
    ghost var sp := Spans(text, 0, chunkSize, overlap);
    ghost var all := RawChunks(text, chunkSize, overlap);
    SpansEnds(text, 0, chunkSize, overlap);
    SpanAt(text, 0, chunkSize, overlap, 0);
    var raw: seq<string> := [];
    var start: nat := 0;
    ghost var k: nat := 0;
    while start < |text|
      invariant k < |sp| == |all| && start == sp[k].0 < |text|
      invariant raw == all[..k]
      decreases |text| - start
    {
      SpanAt(text, 0, chunkSize, overlap, k);
      assert all[..k + 1] == raw + [all[k]];
      if start + chunkSize >= |text| {
        assert text[start..] == all[k];
        raw := raw + [text[start..]];
        k := k + 1;
        break;
      }
      var end, chunk := CutWindow(text, start, chunkSize);
      raw := raw + [chunk];
      start := end - overlap;
      k := k + 1;
      SpanAt(text, 0, chunkSize, overlap, k);
    }
    assert raw == all;
    chunks := CleanChunks(raw);
  }

  /**
    There is a raw piece for every non-empty text; every raw piece is the text between its
    span's ends and at most `chunkSize` long; the last one is the whole rest of the text
    from where it starts.
   */
  lemma RawChunksBounded(text: string, chunkSize: nat, overlap: nat)
    requires ValidParams(chunkSize, overlap) && |text| > 0
    ensures var raw := RawChunks(text, chunkSize, overlap);
      var sp := Spans(text, 0, chunkSize, overlap);
      && |raw| == |sp| > 0
      && (forall i :: 0 <= i < |sp| ==>
            0 <= sp[i].0 < sp[i].1 <= |text| && raw[i] == text[sp[i].0..sp[i].1] && |raw[i]| <= chunkSize)
      && raw[|raw| - 1] == text[sp[|raw| - 1].0..]
  {
    var raw := RawChunks(text, chunkSize, overlap);
    var sp := Spans(text, 0, chunkSize, overlap);
    SpansEnds(text, 0, chunkSize, overlap);
    forall i | 0 <= i < |sp|
      ensures 0 <= sp[i].0 < sp[i].1 <= |text| && raw[i] == text[sp[i].0..sp[i].1] && |raw[i]| <= chunkSize
    {
      SpanAt(text, 0, chunkSize, overlap, i);
    }
  }

  /** Each next raw piece starts `overlap` characters before the previous one ended. */
  lemma SpansOverlap(text: string, chunkSize: nat, overlap: nat)
    requires ValidParams(chunkSize, overlap)
    ensures var sp := Spans(text, 0, chunkSize, overlap);
      forall i :: 0 <= i < |sp| - 1 ==> sp[i + 1].0 == sp[i].1 - overlap
  {
    var sp := Spans(text, 0, chunkSize, overlap);
    forall i | 0 <= i < |sp| - 1
      ensures sp[i + 1].0 == sp[i].1 - overlap
    {
      SpanAt(text, 0, chunkSize, overlap, i);
    }
  }

  /** Span `sp` contains index `k`. */
  predicate Covers(sp: (int, int), k: int) {
    sp.0 <= k < sp.1
  }

  /** Every character of the text from `start` on lies in the span of some raw piece. */
  lemma {:induction false} SpansCover(text: string, start: nat, chunkSize: nat, overlap: nat, k: nat)
    requires ValidParams(chunkSize, overlap) && start <= k < |text|
    ensures exists i :: 0 <= i < |Spans(text, start, chunkSize, overlap)| && Covers(Spans(text, start, chunkSize, overlap)[i], k)
    decreases |text| - start
  {
    var sp := Spans(text, start, chunkSize, overlap);
    if start + chunkSize >= |text| {
      assert sp == [(start, |text|)];
      assert Covers(sp[0], k);
    } else {
      var end := WindowEnd(text, start, chunkSize);
      var rest := Spans(text, end - overlap, chunkSize, overlap);
      assert sp == [(start, end)] + rest;
      if k < end {
        assert sp[0] == (start, end);
        assert Covers(sp[0], k);
      } else {
        SpansCover(text, end - overlap, chunkSize, overlap, k);
        var i :| 0 <= i < |rest| && Covers(rest[i], k);
        assert sp[i + 1] == rest[i];
        assert Covers(sp[i + 1], k);
      }
    }
  }

  /** Span `i` contains index `k`, and raw piece `i` holds character `k` at its offset in the span. */
  ghost predicate PieceHolds(text: string, chunkSize: nat, overlap: nat, i: int, k: int)
    requires ValidParams(chunkSize, overlap)
  {
    var sp := Spans(text, 0, chunkSize, overlap);
    var raw := RawChunks(text, chunkSize, overlap);
    && 0 <= i < |sp| && 0 <= sp[i].0 <= k < sp[i].1 <= |text|
    && i < |raw| && raw[i] == text[sp[i].0..sp[i].1] && raw[i][k - sp[i].0] == text[k]
  }

  /** Together the raw pieces cover the text: character `k` lies in some piece, at its offset in the span. */
  lemma RawChunksCover(text: string, chunkSize: nat, overlap: nat, k: nat)
    requires ValidParams(chunkSize, overlap) && k < |text|
    ensures exists i :: 0 <= i < |Spans(text, 0, chunkSize, overlap)| && PieceHolds(text, chunkSize, overlap, i, k)
  {
    SpansCover(text, 0, chunkSize, overlap, k);
    var sp := Spans(text, 0, chunkSize, overlap);
    var i :| 0 <= i < |sp| && Covers(sp[i], k);
    SpanAt(text, 0, chunkSize, overlap, i);
    assert PieceHolds(text, chunkSize, overlap, i, k);
  }

  /**
    With the default parameters each next piece starts at least 303 characters after the
    previous one started: a cut at a sentence end leaves at least 353 characters, a full
    window 500, and 50 of them are shared with the next piece.
   */
  lemma DefaultStride(text: string)
    ensures var sp := Spans(text, 0, DefaultChunkSize, DefaultOverlap);
      forall i :: 0 <= i < |sp| - 1 ==>
        sp[i].1 - sp[i].0 >= 353 && sp[i + 1].0 >= sp[i].0 + 303
  {
    var sp := Spans(text, 0, DefaultChunkSize, DefaultOverlap);
    forall i | 0 <= i < |sp| - 1
      ensures sp[i].1 - sp[i].0 >= 353 && sp[i + 1].0 >= sp[i].0 + 303
    {
      SpanAt(text, 0, DefaultChunkSize, DefaultOverlap, i);
    }
  }

  /** Stripping and filtering works piece by piece, so it keeps the order of the pieces. */
  lemma {:induction false} CleanChunksAppend(a: seq<string>, b: seq<string>)
    ensures CleanChunks(a + b) == CleanChunks(a) + CleanChunks(b)
    decreases |a|
  {
    if a != [] {
      assert (a + b)[0] == a[0] && (a + b)[1..] == a[1..] + b;
      CleanChunksAppend(a[1..], b);
      var t := Strip(Python, a[0]);
      var h := if t != [] then [t] else [];
      assert CleanChunks(a + b) == h + (CleanChunks(a[1..]) + CleanChunks(b));
      assert CleanChunks(a) == h + CleanChunks(a[1..]);
    } else {
      assert a + b == b;
    }
  }

  /** A piece survives the final filter exactly when it is not all whitespace, and then stripped. */
  lemma CleanChunksOfOne(c: string)
    ensures CleanChunks([c]) == if IsBlank(Python, c) then [] else [Strip(Python, c)]
  {
    StripEmptyIffBlank(Python, c);
    assert [c][1..] == [];
  }
}
