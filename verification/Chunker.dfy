/** The scraper's chunker: paragraphs are packed greedily, and what is still too
    long is cut into overlapping windows. */
module Chunker {
  import opened Paragraphs
  import opened Sequences

  // --- Packing ---

  /** No group with several paragraphs is over the size, and no group could have
      taken in the first paragraph of the next. */
  predicate Greedy(groups: seq<seq<string>>, size: int) {
    && (forall i :: 0 <= i < |groups| ==> groups[i] != [])
    && (forall i :: 0 <= i < |groups| && |groups[i]| > 1 ==> |JoinBlank(groups[i])| <= size)
    && (forall i :: 0 < i < |groups| ==> |JoinBlank(groups[i - 1])| + 2 + |groups[i][0]| > size)
  }

  function Joined(groups: seq<seq<string>>): (chunks: seq<string>)
    ensures |chunks| == |groups| && forall i :: 0 <= i < |chunks| ==> chunks[i] == JoinBlank(groups[i])
  {
    seq(|groups|, i requires 0 <= i < |groups| => JoinBlank(groups[i]))
  }

  lemma JoinSnoc(ps: seq<string>, p: string)
    requires ps != []
    ensures JoinBlank(ps + [p]) == JoinBlank(ps) + "\n\n" + p
  {
    JoinConcat(ps, [p]);
  }

  /** The packing loop after k paragraphs: `group` is what the buffer holds. */
  ghost predicate Packing(ps: seq<string>, k: nat, size: int, chunks: seq<string>, buf: string,
      groups: seq<seq<string>>, group: seq<string>)
    requires k <= |ps|
  {
    && Flat(groups) + group == ps[..k]
    && chunks == Joined(groups)
    && (group == [] <==> buf == "")
    && (group == [] ==> k == 0 && groups == [])
    && (group != [] ==> buf == JoinBlank(group) && Greedy(groups + [group], size))
  }

  lemma PackFirst(ps: seq<string>, k: nat, size: int, chunks: seq<string>, groups: seq<seq<string>>)
    requires k < |ps| && Packing(ps, k, size, chunks, "", groups, []) && IsParagraph(ps[k])
    ensures Packing(ps, k + 1, size, chunks, ps[k], groups, [ps[k]])
  {
    assert ps[..1] == [ps[0]];
  }

  lemma PackMore(ps: seq<string>, k: nat, size: int, chunks: seq<string>, buf: string, groups: seq<seq<string>>,
      group: seq<string>)
    requires k < |ps| && Packing(ps, k, size, chunks, buf, groups, group) && buf != "" && |buf| + 2 + |ps[k]| <= size
    ensures Packing(ps, k + 1, size, chunks, buf + "\n\n" + ps[k], groups, group + [ps[k]])
  {
    hide Flat, Greedy, Joined;
    assert ps[..k + 1] == ps[..k] + [ps[k]];
    JoinSnoc(group, ps[k]);
    GreedyGrows(groups, group, ps[k], size);
  }

  lemma PackNext(ps: seq<string>, k: nat, size: int, chunks: seq<string>, buf: string, groups: seq<seq<string>>,
      group: seq<string>)
    requires k < |ps| && Packing(ps, k, size, chunks, buf, groups, group) && buf != "" && |buf| + 2 + |ps[k]| > size
    requires IsParagraph(ps[k])
    ensures Packing(ps, k + 1, size, chunks + [buf], ps[k], groups + [group], [ps[k]])
  {
    assert JoinBlank([ps[k]]) == ps[k];
    hide Flat, Greedy, JoinBlank;
    assert ps[..k + 1] == ps[..k] + [ps[k]];
    FlatSnoc(groups, group);
    GreedyCloses(groups, group, ps[k], size);
  }

  /** The packing loop. */
  method Pack(paragraphs: seq<string>, size: int) returns (chunks: seq<string>, ghost groups: seq<seq<string>>)
    requires AllParagraphs(paragraphs)
    ensures Flat(groups) == paragraphs && Greedy(groups, size) && chunks == Joined(groups)
  {
    chunks, groups := [], [];
    var buf := "";
    ghost var group: seq<string> := [];
    assert Packing(paragraphs, 0, size, chunks, buf, groups, group);
    hide Packing;
    for k := 0 to |paragraphs|
      invariant Packing(paragraphs, k, size, chunks, buf, groups, group)
      invariant group == [] <==> buf == ""
    {
      var p := paragraphs[k];
      if buf == "" {
        PackFirst(paragraphs, k, size, chunks, groups);
        buf, group := p, [p];
      } else if |buf| + 2 + |p| <= size {
        PackMore(paragraphs, k, size, chunks, buf, groups, group);
        buf, group := buf + "\n\n" + p, group + [p];
      } else {
        PackNext(paragraphs, k, size, chunks, buf, groups, group);
        chunks, groups := chunks + [buf], groups + [group];
        buf, group := p, [p];
      }
    }
    PackLast(paragraphs, size, chunks, buf, groups, group);
    if buf != "" {
      chunks, groups := chunks + [buf], groups + [group];
    }
  }

  lemma PackLast(ps: seq<string>, size: int, chunks: seq<string>, buf: string, groups: seq<seq<string>>,
      group: seq<string>)
    requires Packing(ps, |ps|, size, chunks, buf, groups, group)
    ensures buf == "" ==> Flat(groups) == ps && Greedy(groups, size) && chunks == Joined(groups)
    ensures var all := groups + [group];
      buf != "" ==> Flat(all) == ps && Greedy(all, size) && chunks + [buf] == Joined(all)
  {
    assert ps[..|ps|] == ps;
    FlatSnoc(groups, group);
  }

  lemma GreedyGrows(groups: seq<seq<string>>, group: seq<string>, p: string, size: int)
    requires group != [] && Greedy(groups + [group], size) && |JoinBlank(group)| + 2 + |p| <= size
    ensures Greedy(groups + [group + [p]], size)
  {
    JoinSnoc(group, p);
    var before, after := groups + [group], groups + [group + [p]];
    forall i | 0 <= i < |after| ensures after[i] != [] && after[i][0] == before[i][0] &&
        (|after[i]| > 1 ==> |JoinBlank(after[i])| <= size) {
      assert before[i] != [];
      if i < |groups| { assert after[i] == before[i]; }
    }
    forall i | 0 < i < |after| ensures |JoinBlank(after[i - 1])| + 2 + |after[i][0]| > size {
      assert |JoinBlank(before[i - 1])| + 2 + |before[i][0]| > size;
    }
  }

  lemma GreedyCloses(groups: seq<seq<string>>, group: seq<string>, p: string, size: int)
    requires group != [] && Greedy(groups + [group], size) && |JoinBlank(group)| + 2 + |p| > size
    ensures Greedy(groups + [group] + [[p]], size)
  {
    var before, after := groups + [group], groups + [group] + [[p]];
    forall i | 0 < i < |after| ensures |JoinBlank(after[i - 1])| + 2 + |after[i][0]| > size {
      if i < |before| { assert |JoinBlank(before[i - 1])| + 2 + |before[i][0]| > size; }
    }
    forall i | 0 <= i < |after| && |after[i]| > 1 ensures |JoinBlank(after[i])| <= size {
      assert after[i] == before[i];
    }
  }

  // --- Windows ---

  function Min(a: int, b: int): int { if a < b then a else b }

  /** The windows of c from offset i on. */
  function Windows(c: string, i: nat, size: nat, overlap: nat): seq<string>
    requires size > overlap
    decreases |c| - i
  {
    if i >= |c| then [] else [c[i..Min(i + size, |c|)]] + Windows(c, i + (size - overlap), size, overlap)
  }

  /** Puts windows together again: each but the first loses what it shares with
      the one before, or all of it if it is shorter than that. */
  function Rebuild(ws: seq<string>, overlap: nat): string {
    if ws == [] then "" else ws[0] + Tail(ws[1..], overlap)
  }

  function Tail(ws: seq<string>, overlap: nat): string {
    if ws == [] then "" else ws[0][Min(overlap, |ws[0]|)..] + Tail(ws[1..], overlap)
  }

  lemma {:induction false} TailOfWindows(c: string, i: nat, size: nat, overlap: nat)
    requires size > overlap
    ensures Tail(Windows(c, i, size, overlap), overlap) == c[Min(i + overlap, |c|)..]
    decreases |c| - i
  {
    if i < |c| {
      var end, next := Min(i + size, |c|), i + (size - overlap);
      var w, rest := c[i..end], Windows(c, next, size, overlap);
      TailOfWindows(c, next, size, overlap);
      TailCons(w, rest, overlap);
      hide Windows, Tail;
      assert Min(next + overlap, |c|) == end;
      WithoutOverlap(c, i, end, overlap);
    }
  }

  lemma TailCons(w: string, rest: seq<string>, overlap: nat)
    ensures Tail([w] + rest, overlap) == w[Min(overlap, |w|)..] + Tail(rest, overlap)
  {
    assert ([w] + rest)[1..] == rest;
  }

  lemma WithoutOverlap(c: string, i: nat, end: nat, overlap: nat)
    requires i <= end <= |c| && (i + overlap <= end || end == |c|)
    ensures c[i..end][Min(overlap, end - i)..] + c[end..] == c[Min(i + overlap, |c|)..]
  {
  }

  /** A long chunk is rebuilt from its windows. */
  lemma WindowsAreLossless(c: string, size: nat, overlap: nat)
    requires size > overlap
    ensures Rebuild(Windows(c, 0, size, overlap), overlap) == c
  {
    if c != "" {
      TailOfWindows(c, size - overlap, size, overlap);
      var end := Min(size, |c|);
      assert c[..end] + c[end..] == c;
      assert Min(size - overlap + overlap, |c|) == end;
    }
  }

  lemma {:induction false} WindowsFit(c: string, i: nat, size: nat, overlap: nat)
    requires size > overlap
    ensures forall k :: 0 <= k < |Windows(c, i, size, overlap)| ==> 0 < |Windows(c, i, size, overlap)[k]| <= size
    decreases |c| - i
  {
    if i < |c| { WindowsFit(c, i + (size - overlap), size, overlap); }
  }

  predicate Short(c: string, size: int) { 2 * |c| <= 3 * size }

  /** The second loop gets past a chunk: it is short, or its windows come to an end. */
  predicate Ends(c: string, size: nat, overlap: nat) { Short(c, size) || size > overlap }

  function Pieces(c: string, size: nat, overlap: nat): seq<string>
    requires Ends(c, size, overlap)
  {
    if Short(c, size) then [c] else Windows(c, 0, size, overlap)
  }

  // --- What chunk promises ---

  lemma {:induction false} JoinOfGroups(groups: seq<seq<string>>)
    requires forall i :: 0 <= i < |groups| ==> groups[i] != []
    ensures JoinBlank(Joined(groups)) == JoinBlank(Flat(groups))
    ensures groups != [] ==> Flat(groups) != []
  {
    if groups != [] {
      var rest := groups[1..];
      JoinOfGroups(rest);
      assert Joined(groups) == [JoinBlank(groups[0])] + Joined(rest);
      if rest == [] {
        assert Flat(groups) == groups[0] + Flat(rest) == groups[0];
      } else {
        JoinConcat(groups[0], Flat(rest));
        JoinConcat([JoinBlank(groups[0])], Joined(rest));
      }
    }
  }

  lemma {:induction false} FlatMember(xss: seq<seq<string>>, x: string) returns (i: nat)
    requires x in Flat(xss)
    ensures i < |xss| && x in xss[i]
  {
    if x in xss[0] {
      i := 0;
    } else {
      i := FlatMember(xss[1..], x);
      i := i + 1;
    }
  }

  /** Every piece belongs to a chunk that its pieces rebuild, the chunks joined
      with blank lines are the paragraphs joined with blank lines, and no visible
      character of the text is missing. */
  lemma {:induction false} ChunksAreLossless(text: string, size: nat, overlap: nat, groups: seq<seq<string>>,
      pieces: seq<seq<string>>)
    requires Flat(groups) == ParagraphsOf(text) && Greedy(groups, size) && |pieces| == |groups|
    requires forall i :: 0 <= i < |pieces| ==>
        Ends(JoinBlank(groups[i]), size, overlap) && pieces[i] == Pieces(JoinBlank(groups[i]), size, overlap)
    ensures RebuiltAll(pieces, overlap) == Joined(groups)
    ensures JoinBlank(RebuiltAll(pieces, overlap)) == JoinBlank(ParagraphsOf(text))
    ensures ParagraphsOf(JoinBlank(RebuiltAll(pieces, overlap))) == ParagraphsOf(text)
    ensures Solid(JoinBlank(RebuiltAll(pieces, overlap))) == Solid(text)
  {
    forall i | 0 <= i < |pieces| ensures Rebuild(pieces[i], overlap) == Joined(groups)[i] {
      PiecesRebuild(JoinBlank(groups[i]), size, overlap);
    }
    JoinOfGroups(groups);
    ParagraphsAreParagraphs(text);
    JoinThenSplit(ParagraphsOf(text));
    OnlySpaceIsLost(text);
  }

  function RebuiltAll(pieces: seq<seq<string>>, overlap: nat): (chunks: seq<string>)
    ensures |chunks| == |pieces| && forall i :: 0 <= i < |chunks| ==> chunks[i] == Rebuild(pieces[i], overlap)
  {
    seq(|pieces|, i requires 0 <= i < |pieces| => Rebuild(pieces[i], overlap))
  }

  lemma PiecesRebuild(c: string, size: nat, overlap: nat)
    requires Ends(c, size, overlap)
    ensures Rebuild(Pieces(c, size, overlap), overlap) == c
  {
    if Short(c, size) {
      assert [c][1..] == [] && c + "" == c;
    } else {
      WindowsAreLossless(c, size, overlap);
    }
  }

  /** What becomes of one chunk, in numbers: it is output whole up to one and a half
      times the size; otherwise it is cut every size - overlap characters into pieces
      of that size, the last of which may be shorter. */
  predicate CutRight(c: string, size: nat, overlap: nat, pieces: seq<string>) {
    if 2 * |c| <= 3 * size then pieces == [c]
    else
      && size > overlap
      && (|pieces| - 1) * (size - overlap) < |c| <= |pieces| * (size - overlap)
      && forall k :: 0 <= k < |pieces| ==> IsWindow(c, k * (size - overlap), size, pieces[k])
  }

  predicate IsWindow(c: string, at: int, size: nat, x: string) {
    0 <= at < |c| && x == c[at..if at + size <= |c| then at + size else |c|]
  }

  function Start(i: nat, k: int, step: nat): int { i + k * step }

  lemma StartNext(i: nat, k: int, step: nat)
    ensures Start(i + step, k - 1, step) == Start(i, k, step) && Start(i, 0, step) == i
  {
  }

  lemma {:induction false} WindowsAt(c: string, i: nat, size: nat, overlap: nat)
    requires size > overlap
    ensures var ws, step := Windows(c, i, size, overlap), size - overlap;
      && (forall k :: 0 <= k < |ws| ==> IsWindow(c, Start(i, k, step), size, ws[k]))
      && (i < |c| ==> Start(i, |ws| - 1, step) < |c|) && Start(i, |ws|, step) >= |c|
    decreases |c| - i
  {
    var ws, step := Windows(c, i, size, overlap), size - overlap;
    StartNext(i, 0, step);
    if i < |c| {
      var rest := Windows(c, i + step, size, overlap);
      WindowsAt(c, i + step, size, overlap);
      assert ws == [c[i..Min(i + size, |c|)]] + rest;
      assert i + step >= |c| ==> rest == [];
      assert IsWindow(c, i, size, ws[0]);
      hide Windows, Start, IsWindow;
      forall k | 0 <= k < |ws| ensures IsWindow(c, Start(i, k, step), size, ws[k]) {
        StartNext(i, k, step);
        assert k > 0 ==> ws[k] == rest[k - 1];
      }
      StartNext(i, |ws|, step);
      StartNext(i, |ws| - 1, step);
    }
  }

  lemma PiecesAreCutRight(c: string, size: nat, overlap: nat)
    requires Ends(c, size, overlap)
    ensures CutRight(c, size, overlap, Pieces(c, size, overlap))
  {
    if 2 * |c| > 3 * size {
      WindowsAt(c, 0, size, overlap);
      hide Windows, IsWindow;
      var ws, step := Windows(c, 0, size, overlap), size - overlap;
      assert forall k :: 0 <= k < |ws| ==> Start(0, k, step) == k * step;
    }
  }

  /** No output is longer than one and a half times the size. */
  lemma PiecesAreShort(size: nat, overlap: nat, chunks: seq<string>, pieces: seq<seq<string>>, x: string)
    requires |pieces| == |chunks| && x in Flat(pieces)
    requires forall i :: 0 <= i < |pieces| ==>
        Ends(chunks[i], size, overlap) && pieces[i] == Pieces(chunks[i], size, overlap)
    ensures 2 * |x| <= 3 * size
  {
    var i := FlatMember(pieces, x);
    if !Short(chunks[i], size) {
      WindowsFit(chunks[i], 0, size, overlap);
      var k :| 0 <= k < |pieces[i]| && pieces[i][k] == x;
    }
  }

  /** A paragraph is only ever cut if it is too long by itself: a chunk of several
      paragraphs is not. */
  lemma OnlyLongParagraphsAreCut(size: nat, overlap: nat, groups: seq<seq<string>>, i: nat)
    requires Greedy(groups, size) && i < |groups| && Ends(JoinBlank(groups[i]), size, overlap)
    requires Pieces(JoinBlank(groups[i]), size, overlap) != [JoinBlank(groups[i])]
    ensures |groups[i]| == 1 && 2 * |groups[i][0]| > 3 * size
  {
    var c := JoinBlank(groups[i]);
    assert groups[i] != [] && !Short(c, size);
    assert |groups[i]| > 1 ==> |c| <= size;
  }

  // --- The packing is the greedy one ---

  lemma {:induction false} JoinGrows(ps: seq<string>, n: nat)
    requires 0 < n <= |ps|
    ensures |JoinBlank(ps[..n])| <= |JoinBlank(ps)|
    ensures n < |ps| ==> |JoinBlank(ps[..n])| + 2 + |ps[n]| <= |JoinBlank(ps)|
  {
    assert ps[..n] + ps[n..] == ps;
    if n < |ps| {
      JoinConcat(ps[..n], ps[n..]);
      if n + 1 < |ps| {
        JoinConcat([ps[n]], ps[n + 1..]);
        assert [ps[n]] + ps[n + 1..] == ps[n..];
      } else {
        assert ps[n..] == [ps[n]];
      }
    } else {
      assert ps[..n] == ps;
    }
  }

  /** Two groupings of the same paragraphs cannot differ in their first group. */
  lemma {:induction false} SameFirst(g: seq<seq<string>>, h: seq<seq<string>>, size: int)
    requires Flat(g) == Flat(h) && Greedy(g, size) && Greedy(h, size) && g != [] && h != []
    ensures |g[0]| >= |h[0]|
  {
    var n := |g[0]|;
    assert g[0] != [] && (|h[0]| > 1 ==> |JoinBlank(h[0])| <= size);
    assert Flat(g) == g[0] + Flat(g[1..]) && Flat(h) == h[0] + Flat(h[1..]);
    hide Flat, Greedy, JoinBlank;
    if n < |h[0]| {
      assert g[0] == Flat(g)[..n] == Flat(h)[..n] == h[0][..n];
      SecondGroup(g, size);
      JoinGrows(h[0], n);
    }
  }

  /** What follows the first group did not fit into it. */
  lemma SecondGroup(g: seq<seq<string>>, size: int)
    requires Greedy(g, size) && g != [] && |Flat(g)| > |g[0]|
    ensures |JoinBlank(g[0])| + 2 + |Flat(g)[|g[0]|]| > size
  {
    var rest := g[1..];
    assert Flat(g)[|g[0]|] == Flat(rest)[0];
    assert Flat(rest)[0] == rest[0][0] by { assert g[1] != []; }
    assert |JoinBlank(g[1 - 1])| + 2 + |g[1][0]| > size;
  }

  /** Greedy packing is determined by the paragraphs and the size. */
  lemma {:induction false} GreedyIsUnique(g: seq<seq<string>>, h: seq<seq<string>>, size: int)
    requires Flat(g) == Flat(h) && Greedy(g, size) && Greedy(h, size)
    ensures g == h
  {
    if g == [] || h == [] {
      JoinOfGroups(g);
      JoinOfGroups(h);
    } else {
      SameFirst(g, h, size);
      SameFirst(h, g, size);
      assert g[0] == Flat(g)[..|g[0]|] == Flat(h)[..|g[0]|] == h[0];
      assert Flat(g[1..]) == Flat(g)[|g[0]|..] == Flat(h[1..]);
      GreedyTail(g, size);
      GreedyTail(h, size);
      GreedyIsUnique(g[1..], h[1..], size);
      assert g == [g[0]] + g[1..] && h == [h[0]] + h[1..];
    }
  }

  lemma GreedyTail(g: seq<seq<string>>, size: int)
    requires g != [] && Greedy(g, size)
    ensures Greedy(g[1..], size)
  {
    var t := g[1..];
    forall i | 0 < i < |t| ensures |JoinBlank(t[i - 1])| + 2 + |t[i][0]| > size {
      assert |JoinBlank(g[i])| + 2 + |g[i + 1][0]| > size by { assert g[i + 1 - 1] == g[i]; }
    }
  }

  // --- The window loop ends only if the overlap is smaller than the size ---

  /** The offset after n turns of the loop. */
  function Offset(size: int, overlap: int, n: nat): int {
    if n == 0 then 0 else Offset(size, overlap, n - 1) + (size - overlap)
  }

  lemma {:induction false} OffsetMoves(size: int, overlap: int, n: nat)
    ensures size > overlap ==> Offset(size, overlap, n) >= n
    ensures size <= overlap ==> Offset(size, overlap, n) <= 0
  {
    if n > 0 { OffsetMoves(size, overlap, n - 1); }
  }

  /** On a chunk that has characters, the loop condition fails at some turn if and
      only if the overlap is smaller than the size. */
  lemma WindowLoopEndsIff(c: string, size: int, overlap: int)
    requires c != ""
    ensures (exists n: nat :: Offset(size, overlap, n) >= |c|) <==> size > overlap
  {
    OffsetMoves(size, overlap, |c|);
    forall n: nat ensures size <= overlap ==> Offset(size, overlap, n) <= 0 { OffsetMoves(size, overlap, n); }
  }

  // --- The method itself ---

  method CutWindows(out0: seq<string>, c: string, size: nat, overlap: nat) returns (out: seq<string>)
    requires size > overlap
    ensures out == out0 + Windows(c, 0, size, overlap)
  {
    out := out0;
    var i := 0;
    while i < |c|
      invariant out + Windows(c, i, size, overlap) == out0 + Windows(c, 0, size, overlap)
      decreases |c| - i
    {
      out := out + [c[i..Min(i + size, |c|)]];
      i := i + (size - overlap);
    }
  }

  /** The second loop: short chunks stay whole, long ones are cut. */
  method CutLong(chunks: seq<string>, size: nat, overlap: nat)
      returns (out: seq<string>, ghost pieces: seq<seq<string>>)
    requires forall i :: 0 <= i < |chunks| ==> Ends(chunks[i], size, overlap)
    ensures out == Flat(pieces) && |pieces| == |chunks|
    ensures forall i :: 0 <= i < |pieces| ==> pieces[i] == Pieces(chunks[i], size, overlap)
  {
    out, pieces := [], [];
    assert out == Flat(pieces);
    hide Flat;
    for k := 0 to |chunks|
      invariant out == Flat(pieces) && |pieces| == k
      invariant forall i :: 0 <= i < k ==> pieces[i] == Pieces(chunks[i], size, overlap)
    {
      var c := chunks[k];
      if 2 * |c| <= 3 * size {
        out := out + [c];
      } else {
        out := CutWindows(out, c, size, overlap);
      }
      FlatSnoc(pieces, Pieces(c, size, overlap));
      pieces := pieces + [Pieces(c, size, overlap)];
    }
  }

  /** For which texts chunk ends: the overlap is smaller than the size, or no paragraph
      is too long. */
  predicate Chunkable(text: string, size: nat, overlap: nat) {
    size > overlap || forall p :: p in ParagraphsOf(text) ==> 2 * |p| <= 3 * size
  }

  lemma PartOfJoin(ps: seq<string>, k: nat)
    requires k < |ps|
    ensures |ps[k]| <= |JoinBlank(ps)|
  {
    JoinGrows(ps, k + 1);
    if k > 0 { JoinGrows(ps[..k + 1], k); }
    assert ps[..k + 1][k] == ps[k];
  }

  lemma {:induction false} InGroup(groups: seq<seq<string>>, i: nat, p: string)
    requires i < |groups| && p in groups[i]
    ensures p in Flat(groups)
  {
    if i > 0 { InGroup(groups[1..], i - 1, p); }
  }

  /** The second loop gets past all chunks exactly for these. */
  lemma ChunkableIff(text: string, size: nat, overlap: nat, groups: seq<seq<string>>)
    requires Flat(groups) == ParagraphsOf(text) && Greedy(groups, size)
    ensures (forall i :: 0 <= i < |groups| ==> Ends(JoinBlank(groups[i]), size, overlap)) <==>
        Chunkable(text, size, overlap)
  {
    hide Flat, ParagraphsOf, JoinBlank;
    if size <= overlap && Chunkable(text, size, overlap) {
      forall i | 0 <= i < |groups| ensures Ends(JoinBlank(groups[i]), size, overlap) {
        assert groups[i] != [] && (|groups[i]| > 1 ==> |JoinBlank(groups[i])| <= size);
        if |groups[i]| == 1 {
          InGroup(groups, i, groups[i][0]);
          assert JoinBlank(groups[i]) == groups[i][0] by { JoinOne(groups[i]); }
        }
      }
    }
    if size <= overlap && forall i :: 0 <= i < |groups| ==> Ends(JoinBlank(groups[i]), size, overlap) {
      forall p | p in ParagraphsOf(text) ensures Short(p, size) {
        var i := FlatMember(groups, p);
        var k :| 0 <= k < |groups[i]| && groups[i][k] == p;
        PartOfJoin(groups[i], k);
        assert Ends(JoinBlank(groups[i]), size, overlap);
      }
    }
  }

  lemma JoinOne(ps: seq<string>)
    requires |ps| == 1
    ensures JoinBlank(ps) == ps[0]
  {
  }

  /** The whole of chunk, for parameters with which it ends. */
  method Chunk(text: string, size: nat, overlap: nat)
      returns (out: seq<string>, ghost groups: seq<seq<string>>, ghost pieces: seq<seq<string>>)
    requires Chunkable(text, size, overlap)
    ensures Flat(groups) == ParagraphsOf(text) && Greedy(groups, size)
    ensures out == Flat(pieces) && |pieces| == |groups|
    ensures forall i :: 0 <= i < |pieces| ==>
        Ends(JoinBlank(groups[i]), size, overlap) && pieces[i] == Pieces(JoinBlank(groups[i]), size, overlap)
    ensures JoinBlank(RebuiltAll(pieces, overlap)) == JoinBlank(ParagraphsOf(text))
    ensures forall x :: x in out ==> 2 * |x| <= 3 * size
    ensures forall i :: 0 <= i < |pieces| ==> CutRight(JoinBlank(groups[i]), size, overlap, pieces[i])
  {
    hide Flat, JoinBlank, ParagraphsOf, Pieces, RebuiltAll, Greedy, Short, Joined, Ends, Chunkable, CutRight;
    ParagraphsAreParagraphs(text);
    var chunks;
    chunks, groups := Pack(ParagraphsOf(text), size);
    ChunkableIff(text, size, overlap, groups);
    out, pieces := CutLong(chunks, size, overlap);
    ChunksAreLossless(text, size, overlap, groups, pieces);
    forall i | 0 <= i < |pieces| ensures CutRight(JoinBlank(groups[i]), size, overlap, pieces[i]) {
      PiecesAreCutRight(JoinBlank(groups[i]), size, overlap);
    }
    forall x | x in out ensures 2 * |x| <= 3 * size { PiecesAreShort(size, overlap, chunks, pieces, x); }
  }
}
