/**
 How a stream of agent messages and thoughts becomes blocks. There are two merge paths, one for
 text that streams into a shown block and one for everything else; together they split the
 stream exactly where the kind changes or two known message ids conflict.
 */
module ChunkMerging {
  import opened Prelude
  import opened Utf8
  import opened Content
  import opened ThreadModel
  import ThreadDocuments
  import Streaming

  datatype Piece = Piece(id: Option<nat>, content: AcpContent, thought: bool)

  // ---------- the reference: splitting a stream ----------

  /** The first known id. */
  function KnownId(group: seq<Piece>): Option<nat> {
    if group == [] then None
    else if KnownId(group[..|group| - 1]).Some? then KnownId(group[..|group| - 1])
    else group[|group| - 1].id
  }

  predicate JoinsGroup(group: seq<Piece>, p: Piece) {
    group != [] && group[0].thought == p.thought && CanMerge(KnownId(group), p.id)
  }

  function Groups(ps: seq<Piece>): (g: seq<seq<Piece>>)
    ensures |g| == 0 <==> ps == []
    ensures forall i :: 0 <= i < |g| ==> g[i] != []
  {
    if ps == [] then []
    else
      var g, p := Groups(ps[..|ps| - 1]), ps[|ps| - 1];
      if |g| > 0 && JoinsGroup(g[|g| - 1], p) then WithLast(g, g[|g| - 1] + [p]) else g + [[p]]
  }

  function Flatten(g: seq<seq<Piece>>): seq<Piece> {
    if g == [] then [] else Flatten(g[..|g| - 1]) + g[|g| - 1]
  }

  /** One kind throughout, and all known ids the same. */
  predicate Uniform(group: seq<Piece>) {
    forall i :: 0 <= i < |group| ==>
      group[i].thought == group[0].thought && (group[i].id.Some? ==> group[i].id == KnownId(group))
  }

  /** A change of kind, or a known id that conflicts with the block's. */
  predicate Splits(before: seq<Piece>, next: Piece) {
    before != [] && (before[0].thought != next.thought || (KnownId(before).Some? && next.id.Some? && KnownId(before) != next.id))
  }

  /** A division of the stream into uniform groups, with a split between any two neighbours. */
  predicate Segmentation(g: seq<seq<Piece>>, ps: seq<Piece>) {
    && Flatten(g) == ps
    && (forall i :: 0 <= i < |g| ==> g[i] != [] && Uniform(g[i]))
    && (forall i :: 0 < i < |g| ==> Splits(g[i - 1], g[i][0]))
  }

  lemma {:induction false} KnownIdNext(group: seq<Piece>, p: Piece)
    ensures KnownId(group + [p]) == Adopt(KnownId(group), p.id)
  {
  }

  lemma {:induction false} UniformNext(group: seq<Piece>, p: Piece)
    requires group != []
    ensures Uniform(group + [p]) <==> Uniform(group) && JoinsGroup(group, p)
  {
    KnownIdNext(group, p);
    var more := group + [p];
    assert more[|group|] == p && forall i :: 0 <= i < |group| ==> more[i] == group[i];
    if Uniform(group + [p]) {
      forall i | 0 <= i < |group| && group[i].id.Some? ensures group[i].id == KnownId(group) {
        assert more[i].id == KnownId(more);
        KnownIdOfMember(group, i);
      }
    }
  }

  lemma {:induction false} KnownIdOfMember(group: seq<Piece>, i: nat)
    requires i < |group| && group[i].id.Some?
    ensures KnownId(group).Some?
  {
    if i < |group| - 1 { KnownIdOfMember(group[..|group| - 1], i); }
  }

  lemma {:induction false} JoinIsSegmentation(g: seq<seq<Piece>>, ps: seq<Piece>, p: Piece)
    requires Segmentation(g, ps) && |g| > 0 && JoinsGroup(g[|g| - 1], p)
    ensures Segmentation(WithLast(g, g[|g| - 1] + [p]), ps + [p])
  {
  }

  lemma {:induction false} SplitIsSegmentation(g: seq<seq<Piece>>, ps: seq<Piece>, p: Piece)
    requires Segmentation(g, ps) && (|g| > 0 ==> !JoinsGroup(g[|g| - 1], p))
    ensures Segmentation(g + [[p]], ps + [p])
  {
    assert (g + [[p]])[..|g|] == g;
    assert Uniform([p]) by { assert KnownId([p]) == Adopt(KnownId([p][..0]), p.id); }
  }

  /** The groups divide the stream ... */
  lemma {:induction false} GroupsAreSegmentation(ps: seq<Piece>)
    ensures Segmentation(Groups(ps), ps)
  {
    if ps == [] {
    } else {
      var before, p := ps[..|ps| - 1], ps[|ps| - 1];
      GroupsAreSegmentation(before);
      var g := Groups(before);
      assert before + [p] == ps;
      if |g| > 0 && JoinsGroup(g[|g| - 1], p) {
        JoinIsSegmentation(g, before, p);
      } else {
        SplitIsSegmentation(g, before, p);
      }
    }
  }

  /** A division without its last piece, when that piece is a group of its own ... */
  lemma {:induction false} DropGroup(g: seq<seq<Piece>>, ps: seq<Piece>)
    requires Segmentation(g, ps) && g != [] && |g[|g| - 1]| == 1
    ensures ps != [] && Segmentation(g[..|g| - 1], ps[..|ps| - 1]) && g[|g| - 1] == [ps[|ps| - 1]]
  {
  }

  /** ... and when it is not. */
  lemma {:induction false} ShortenGroup(g: seq<seq<Piece>>, ps: seq<Piece>)
    requires Segmentation(g, ps) && g != [] && |g[|g| - 1]| > 1
    ensures ps != []
    ensures var shorter := g[|g| - 1][..|g[|g| - 1]| - 1];
            && shorter + [ps[|ps| - 1]] == g[|g| - 1]
            && JoinsGroup(shorter, ps[|ps| - 1])
            && Segmentation(g[|g| - 1 := shorter], ps[..|ps| - 1])
  {
    var n := |g| - 1;
    var last := g[n];
    var shorter := last[..|last| - 1];
    assert ps == Flatten(g[..n]) + last;
    assert last == shorter + [ps[|ps| - 1]];
    UniformNext(shorter, ps[|ps| - 1]);
    var h := g[n := shorter];
    assert h[..n] == g[..n];
    assert ps[..|ps| - 1] == Flatten(h);
  }

  /** ... and there is no other way to divide it: splits occur exactly at a change of kind or a conflict of ids. */
  lemma {:induction false} SegmentationIsUnique(g: seq<seq<Piece>>, ps: seq<Piece>)
    requires Segmentation(g, ps)
    ensures g == Groups(ps)
    decreases |ps|
  {
    if g == [] {
    } else {
      var n := |g| - 1;
      var last := g[n];
      if |last| == 1 {
        DropGroup(g, ps);
        SegmentationIsUnique(g[..n], ps[..|ps| - 1]);
        assert n > 0 ==> Splits(g[n - 1], last[0]);
        assert g == g[..n] + [last];
      } else {
        ShortenGroup(g, ps);
        var h := g[n := last[..|last| - 1]];
        SegmentationIsUnique(h, ps[..|ps| - 1]);
        assert g == WithLast(h, last);
      }
    }
  }

  // ---------- the thread ----------

  function Feed(s: State, ps: seq<Piece>, indented: bool): State {
    if ps == [] then s
    else
      var p := ps[|ps| - 1];
      PushAssistant(Feed(s, ps[..|ps| - 1], indented), p.id, p.content, p.thought, indented)
  }

  function FeedEagerly(s: State, ps: seq<Piece>, indented: bool): State {
    if ps == [] then s
    else
      var p := ps[|ps| - 1];
      AppendChunk(FeedEagerly(s, ps[..|ps| - 1], indented), p.id, p.content, p.thought, indented)
  }

  /** The two merge paths agree: with streaming or without, the same blocks come out. */
  lemma {:induction false} MergePathsAgree(s: State, ps: seq<Piece>, indented: bool)
    requires ThreadDocuments.DocumentsOk(s)
    ensures ThreadDocuments.DocumentsOk(Feed(s, ps, indented))
    ensures Flushed(Feed(s, ps, indented)) == FeedEagerly(Flushed(s), ps, indented)
  {
    if ps != [] {
      var p := ps[|ps| - 1];
      MergePathsAgree(s, ps[..|ps| - 1], indented);
      var t := Feed(s, ps[..|ps| - 1], indented);
      ThreadDocuments.ChunkKeepsDocs(t, p.id, p.content, p.thought, indented);
      Streaming.ChunkCommutes(t, p.id, p.content, p.thought, indented);
    }
  }

  /** A block with its document's text in place of the document. */
  function Resolved(markdown: seq<Text>, b: ContentBlock<nat>): ContentBlock<Text> {
    match b
    case Empty => Empty
    case Markdown(m) => Markdown(if m < |markdown| then markdown[m] else [])
    case EmbeddedResource(r, _) => EmbeddedResource(r, None)
    case ResourceLink(uri, link) => ResourceLink(uri, link)
    case Image(image) => Image(image)
  }

  function Absorbing(b: ContentBlock<Text>, c: AcpContent): ContentBlock<Text> {
    match AppendEffect(b, c)
    case BecomeLink(uri, link) => ResourceLink(uri, link)
    case BecomeImage(image) => Image(image)
    case NewMarkdown(text) => Markdown(text)
    case Extend(text) => Markdown(b.markdown + text)
  }

  /** The block that a group's contents make, one after the other. */
  function Folded(group: seq<Piece>): ContentBlock<Text> {
    if group == [] then Empty else Absorbing(Folded(group[..|group| - 1]), group[|group| - 1].content)
  }

  predicate Matches(markdown: seq<Text>, chunk: Chunk, group: seq<Piece>) {
    && group != []
    && chunk.thought == group[0].thought
    && chunk.id == KnownId(group)
    && Resolved(markdown, chunk.block) == Folded(group)
  }

  /** Each chunk's document is its own, and none is older than `from`. */
  predicate OwnDocuments(chunks: seq<Chunk>, markdown: seq<Text>, from: nat) {
    && (forall i :: 0 <= i < |chunks| && chunks[i].block.Markdown? ==> from <= chunks[i].block.markdown < |markdown|)
    && (forall i, j :: 0 <= i < j < |chunks| && chunks[i].block.Markdown? && chunks[j].block.Markdown? ==>
          chunks[i].block.markdown != chunks[j].block.markdown)
  }

  /** The chunks of an assistant message match the groups of a stream. */
  predicate AllMatch(markdown: seq<Text>, chunks: seq<Chunk>, g: seq<seq<Piece>>, from: nat) {
    && |chunks| == |g|
    && (forall i :: 0 <= i < |g| ==> Matches(markdown, chunks[i], g[i]))
    && OwnDocuments(chunks, markdown, from)
  }

  /** A fresh chunk, or the last one after it took in more, matches its group. */
  lemma {:induction false} AbsorbMatches(markdown: seq<Text>, b: ContentBlock<nat>, group: seq<Piece>, p: Piece)
    requires Resolved(markdown, b) == Folded(group) && (b.Markdown? ==> b.markdown < |markdown|)
    ensures var a := Absorb(markdown, b, p.content);
            && Resolved(a.markdown, a.block) == Folded(group + [p])
            && |markdown| <= |a.markdown|
            && (forall m :: 0 <= m < |markdown| && b != Markdown(m) ==> a.markdown[m] == markdown[m])
            && (a.block.Markdown? ==> a.block == b || |markdown| == a.block.markdown < |a.markdown|)
  {
  }

  lemma {:induction false} OthersStillMatch(markdown: seq<Text>, markdown': seq<Text>, chunk: Chunk, group: seq<Piece>)
    requires Matches(markdown, chunk, group)
    requires chunk.block.Markdown? ==> chunk.block.markdown < |markdown| <= |markdown'|
                                       && markdown'[chunk.block.markdown] == markdown[chunk.block.markdown]
    ensures Matches(markdown', chunk, group)
  {
  }

  lemma {:induction false} GrowMatches(markdown: seq<Text>, entry: Entry, g: seq<seq<Piece>>, p: Piece, from: nat)
    requires entry.AssistantMessage? && AllMatch(markdown, entry.chunks, g, from) && |g| > 0 && from <= |markdown|
    ensures var grown := Grow(markdown, entry, p.id, p.content, p.thought);
            var g' := if JoinsGroup(g[|g| - 1], p) then WithLast(g, g[|g| - 1] + [p]) else g + [[p]];
            AllMatch(grown.markdown, grown.entry.chunks, g', from) && |markdown| <= |grown.markdown|
  {
    var n := |g| - 1;
    var grown := Grow(markdown, entry, p.id, p.content, p.thought);
    var last := entry.chunks[n];
    assert Matches(markdown, last, g[n]);
    var joins := JoinsGroup(g[n], p);
    assert Joins(entry.chunks, p.thought, p.id) <==> joins;
    if joins {
      AbsorbMatches(markdown, last.block, g[n], p);
      KnownIdNext(g[n], p);
    } else {
      assert Folded([]) == Empty;
      AbsorbMatches(markdown, Empty, [], p);
      KnownIdNext([], p);
      assert [] + [p] == [p];
    }
    forall i | 0 <= i < |entry.chunks| && (i < n || !joins)
      ensures Matches(grown.markdown, grown.entry.chunks[i], g[i])
    {
      OthersStillMatch(markdown, grown.markdown, entry.chunks[i], g[i]);
    }
    assert OwnDocuments(grown.entry.chunks, grown.markdown, from);
  }

  /** After `s`, the state `t` has one more entry: an assistant message whose chunks are the stream's groups. */
  predicate ShowsGroups(s: State, t: State, ps: seq<Piece>, indented: bool) {
    && |t.entries| == |s.entries| + 1 && t.entries[..|s.entries|] == s.entries
    && LastIsAssistant(t.entries, indented)
    && |s.markdown| <= |t.markdown|
    && AllMatch(t.markdown, t.entries[|s.entries|].chunks, Groups(ps), |s.markdown|)
  }

  /**
   Fed with a stream at one indent, the thread adds one assistant message whose chunks are the
   stream's groups: their kinds, their known ids, and their contents in the order they came.
   */
  lemma {:induction false} ChunksAreGroups(s: State, ps: seq<Piece>, indented: bool)
    requires s.buffer.None? && !LastIsAssistant(s.entries, indented) && ps != []
    ensures FeedEagerly(s, ps, indented).buffer.None? && ShowsGroups(s, FeedEagerly(s, ps, indented), ps, indented)
  {
    var before, p := ps[..|ps| - 1], ps[|ps| - 1];
    if before == [] {
      assert ps == [p];
      FirstChunk(s, p, indented);
    } else {
      ChunksAreGroups(s, before, indented);
      MoreChunks(s, FeedEagerly(s, before, indented), before, p, indented);
      assert before + [p] == ps;
    }
  }

  lemma {:induction false} FirstChunk(s: State, p: Piece, indented: bool)
    requires s.buffer.None? && !LastIsAssistant(s.entries, indented)
    ensures var u := AppendChunk(s, p.id, p.content, p.thought, indented);
            u.buffer.None? && ShowsGroups(s, u, [p], indented)
  {
    assert Folded([]) == Empty;
    AbsorbMatches(s.markdown, Empty, [], p);
    KnownIdNext([], p);
    assert [] + [p] == [p];
    assert Groups([p]) == [[p]];
  }

  lemma {:induction false} MoreChunks(s: State, t: State, before: seq<Piece>, p: Piece, indented: bool)
    requires before != [] && t.buffer.None? && ShowsGroups(s, t, before, indented)
    ensures var u := AppendChunk(t, p.id, p.content, p.thought, indented);
            u.buffer.None? && ShowsGroups(s, u, before + [p], indented)
  {
    var entry := t.entries[|s.entries|];
    GrowMatches(t.markdown, entry, Groups(before), p, |s.markdown|);
    var grown := Grow(t.markdown, entry, p.id, p.content, p.thought);
    var u := AppendChunk(t, p.id, p.content, p.thought, indented);
    assert u.entries == WithLast(t.entries, grown.entry) && u.markdown == grown.markdown;
    assert (before + [p])[..|before|] == before;
  }

  /** For text the block is simply the texts in order. */
  function TextOf(group: seq<Piece>): Text {
    if group == [] then [] else TextOf(group[..|group| - 1]) + StringContents(group[|group| - 1].content)
  }

  lemma {:induction false} TextBlocksConcatenate(group: seq<Piece>)
    requires group != [] && forall i :: 0 <= i < |group| ==> group[i].content.TextContent?
    ensures Folded(group) == Markdown(TextOf(group))
  {
    var before := group[..|group| - 1];
    if before == [] {
      assert Folded([]) == Empty && TextOf([]) == [];
      assert group[|group| - 1].content.text == [] + group[|group| - 1].content.text;
    } else {
      TextBlocksConcatenate(before);
    }
  }

  /** The same for the thread that streams, once it is flushed. */
  lemma {:induction false} StreamedChunksAreGroups(s: State, ps: seq<Piece>, indented: bool)
    requires ThreadDocuments.DocumentsOk(s) && !LastIsAssistant(s.entries, indented) && ps != []
    ensures ShowsGroups(s, Flushed(Feed(s, ps, indented)), ps, indented) && Segmentation(Groups(ps), ps)
  {
    MergePathsAgree(s, ps, indented);
    ChunksAreGroups(Flushed(s), ps, indented);
    GroupsAreSegmentation(ps);
  }
}
