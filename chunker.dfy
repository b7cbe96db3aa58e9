/**
 * `chunkText`: splits a document into paragraphs at blank lines and packs consecutive
 * paragraphs greedily into chunks of about `chunkSize` characters.
 */
module Chunker {
  import opened Text

  /** The chunk size every caller uses (the parameter's default). */
  const DefaultChunkSize: int := 500

  /**
   * The chunks flushed while packing `paras`, starting from the running buffer `current`.
   * The buffer is flushed, trimmed, when it is non-empty and taking the next paragraph
   * would make it longer than `size`; otherwise the paragraph is appended, after a blank
   * line when the buffer is non-empty. A non-empty buffer left at the end is flushed too.
   */
  function Packed(paras: seq<string>, size: int, current: string): seq<string>
    decreases |paras|
  {
    if paras == [] then
      if current != "" then [Trim(current)] else []
    else if Flushes(current, paras[0], size) then
      [Trim(current)] + Packed(paras[1..], size, paras[0])
    else
      Packed(paras[1..], size, Extend(current, paras[0]))
  }

  /** The buffer is flushed before `para` when it is non-empty and would grow past `size`. */
  predicate Flushes(current: string, para: string, size: int) {
    |current| + |para| > size && |current| > 0
  }

  /** `current += (current ? '\n\n' : '') + para`: an empty buffer becomes the paragraph itself. */
  function Extend(current: string, para: string): (r: string)
    ensures current == "" ==> r == para
    ensures current != "" ==> r == current + Blank + para && |r| == |current| + 2 + |para|
  {
    var r := current + (if current != "" then Blank else "") + para;
    assert current == "" ==> r == para by {
      if current == "" { assert current + "" == ""; }
    }
    r
  }

  /** `chunks.filter(chunk => chunk.length > 0)`. */
  function KeepNonEmpty(chunks: seq<string>): (r: seq<string>)
    ensures forall c :: c in r ==> c != ""
    ensures forall c :: c in r <==> c in chunks && c != ""
    ensures (forall i :: 0 <= i < |chunks| ==> chunks[i] != "") ==> r == chunks
    ensures |r| <= |chunks|
  {
    if chunks == [] then []
    else if chunks[0] == "" then KeepNonEmpty(chunks[1..])
    else [chunks[0]] + KeepNonEmpty(chunks[1..])
  }

  /** The filter works piece by piece, so the kept chunks stay in order, duplicates included. */
  lemma {:induction false} KeepNonEmptyAppend(a: seq<string>, b: seq<string>)
    ensures KeepNonEmpty(a + b) == KeepNonEmpty(a) + KeepNonEmpty(b)
  {
    if a == [] {
      assert a + b == b;
    } else {
      assert (a + b)[0] == a[0] && (a + b)[1..] == a[1..] + b;
      KeepNonEmptyAppend(a[1..], b);
    }
  }

  /** A single chunk is kept exactly when it is non-empty. */
  lemma KeepNonEmptyOne(c: string)
    ensures KeepNonEmpty([c]) == if c == "" then [] else [c]
  {
    assert [c][1..] == [];
  }

  /** What `chunkText(text, size)` returns. */
  function ChunkText(text: string, size: int): (r: seq<string>)
    ensures forall c :: c in r ==> |c| > 0
  {
    KeepNonEmpty(Packed(Split(text), size, ""))
  }

  /** `chunkText` as the source writes it: one pass over the paragraphs that reassigns the buffer. */
  method Chunk(text: string, size: int) returns (chunks: seq<string>)
    ensures chunks == ChunkText(text, size)
  {
    var paragraphs := Split(text);
    var flushed: seq<string> := [];
    var current := "";
    for i := 0 to |paragraphs|
      invariant flushed + Packed(paragraphs[i..], size, current) == Packed(paragraphs, size, "")
    {
      var para := paragraphs[i];
      assert paragraphs[i..][0] == para && paragraphs[i..][1..] == paragraphs[i + 1..];
      if |current| + |para| > size && |current| > 0 {
        flushed := flushed + [Trim(current)];
        current := para;
      } else {
        current := current + (if current != "" then Blank else "") + para;
      }
    }
    assert paragraphs[|paragraphs|..] == [];
    if current != "" {
      flushed := flushed + [Trim(current)];
    }
    assert flushed == Packed(paragraphs, size, "");
    chunks := KeepNonEmpty(flushed);
  }

  // ---------------------------------------------------------------------------
  // Properties of the chunks

  /** Every flushed chunk is a trim, and trimming is idempotent. */
  lemma {:induction false} PackedTrimmed(paras: seq<string>, size: int, current: string)
    ensures forall c :: c in Packed(paras, size, current) ==> Trim(c) == c
    decreases |paras|
  {
    if paras == [] {
      TrimIdempotent(current);
    } else if Flushes(current, paras[0], size) {
      TrimIdempotent(current);
      PackedTrimmed(paras[1..], size, paras[0]);
    } else {
      PackedTrimmed(paras[1..], size, Extend(current, paras[0]));
    }
  }

  /** No chunk has leading or trailing whitespace: every chunk is its own trim. */
  lemma ChunksTrimmed(text: string, size: int)
    ensures forall c :: c in ChunkText(text, size) ==> Trim(c) == c && Clean(c)
  {
    PackedTrimmed(Split(text), size, "");
    forall c | c in ChunkText(text, size) ensures Clean(c) {
      assert Trim(c) == c && c != "";
    }
  }

  /**
   * Every flushed chunk is at most `size + 2` long or the trim of one of `all`, as long as
   * the buffer starts out so and every paragraph to come is one of `all`.
   */
  lemma {:induction false} PackedBound(paras: seq<string>, size: int, current: string, all: seq<string>)
    requires current == "" || |current| <= size + 2 || current in all
    requires forall k :: 0 <= k < |paras| ==> paras[k] in all
    ensures forall c :: c in Packed(paras, size, current) ==>
              |c| <= size + 2 || exists p :: p in all && c == Trim(p)
    decreases |paras|
  {
    if paras == [] {
    } else if Flushes(current, paras[0], size) {
      PackedBound(paras[1..], size, paras[0], all);
    } else {
      PackedBound(paras[1..], size, Extend(current, paras[0]), all);
    }
  }

  /**
   * A buffer grows past `size` only by its first paragraph, so a chunk longer than
   * `size + 2` is one paragraph, trimmed: a chunk of two or more paragraphs is at most
   * `size + 2` characters long.
   */
  lemma ChunkLengthBound(text: string, size: int)
    ensures forall c :: c in ChunkText(text, size) ==>
              |c| <= size + 2 || exists p :: p in Split(text) && c == Trim(p)
  {
    PackedBound(Split(text), size, "", Split(text));
  }

  /**
   * An oversized buffer is flushed whole, and an oversized paragraph is flushed whole
   * later: either it starts a buffer of its own or it is taken into an empty one.
   */
  lemma {:induction false} PackedKeepsOversized(paras: seq<string>, size: int, current: string)
    ensures |current| > size && current != "" ==> Trim(current) in Packed(paras, size, current)
    ensures forall k :: 0 <= k < |paras| && |paras[k]| > size && paras[k] != "" ==>
              Trim(paras[k]) in Packed(paras, size, current)
    decreases |paras|
  {
    if paras != [] {
      var p, tail := paras[0], paras[1..];
      var flush := Flushes(current, p, size);
      var next := if flush then p else Extend(current, p);
      PackedKeepsOversized(tail, size, next);
      var out, rest := Packed(paras, size, current), Packed(tail, size, next);
      assert flush ==> out == [Trim(current)] + rest;
      assert !flush ==> out == rest;
      assert forall c :: c in rest ==> c in out;
      forall k | 0 <= k < |paras| && |paras[k]| > size && paras[k] != "" ensures Trim(paras[k]) in out {
        if k == 0 {
          assert next == p;
        } else {
          assert paras[k] == tail[k - 1];
        }
      }
    }
  }

  /** A paragraph longer than `size` is never split: it comes out whole, as one chunk. */
  lemma OversizedParagraphKept(text: string, size: int)
    ensures forall p :: p in Split(text) && |p| > size && Trim(p) != "" ==> Trim(p) in ChunkText(text, size)
  {
    var paras := Split(text);
    PackedKeepsOversized(paras, size, "");
    forall p | p in paras && |p| > size && Trim(p) != "" ensures Trim(p) in ChunkText(text, size) {
      var k :| 0 <= k < |paras| && paras[k] == p;
    }
  }

  /** Packing clean paragraphs into a clean buffer flushes at least one chunk and no empty one. */
  lemma {:induction false} PackedNonEmpty(paras: seq<string>, size: int, current: string)
    requires Clean(current)
    requires forall k :: 0 <= k < |paras| ==> Clean(paras[k])
    ensures Packed(paras, size, current) != []
    ensures forall c :: c in Packed(paras, size, current) ==> c != ""
    decreases |paras|
  {
    TrimClean(current);
    if paras != [] {
      var p, tail := paras[0], paras[1..];
      if Flushes(current, p, size) {
        PackedNonEmpty(tail, size, p);
      } else {
        var next := Extend(current, p);
        assert next[0] == current[0] && next[|next| - 1] == p[|p| - 1];
        PackedNonEmpty(tail, size, next);
      }
    }
  }

  /** Packing clean paragraphs into a clean buffer loses nothing: the chunks join back to buffer and paragraphs. */
  lemma {:induction false} PackedJoin(paras: seq<string>, size: int, current: string)
    requires Clean(current)
    requires forall k :: 0 <= k < |paras| ==> Clean(paras[k])
    ensures Join(Packed(paras, size, current)) == Join([current] + paras)
    decreases |paras|, 1
  {
    if paras == [] {
      TrimClean(current);
      assert [current] + paras == [current];
    } else if Flushes(current, paras[0], size) {
      PackedJoinFlush(paras, size, current);
    } else {
      PackedJoinExtend(paras, size, current);
    }
  }

  /** The step of `PackedJoin` where the buffer is flushed. */
  lemma {:induction false} PackedJoinFlush(paras: seq<string>, size: int, current: string)
    requires Clean(current)
    requires forall k :: 0 <= k < |paras| ==> Clean(paras[k])
    requires paras != [] && Flushes(current, paras[0], size)
    ensures Join(Packed(paras, size, current)) == Join([current] + paras)
    decreases |paras|, 0
  {
    var p, tail := paras[0], paras[1..];
    var rest := Packed(tail, size, p);
    TrimClean(current);
    assert Packed(paras, size, current) == [current] + rest;
    PackedJoin(tail, size, p);
    assert [p] + tail == paras;
    PackedNonEmpty(tail, size, p);
    JoinCons(current, rest);
    JoinCons(current, paras);
  }

  /** The step of `PackedJoin` where the paragraph is appended to the buffer. */
  lemma {:induction false} PackedJoinExtend(paras: seq<string>, size: int, current: string)
    requires Clean(current)
    requires forall k :: 0 <= k < |paras| ==> Clean(paras[k])
    requires paras != [] && !Flushes(current, paras[0], size)
    ensures Join(Packed(paras, size, current)) == Join([current] + paras)
    decreases |paras|, 0
  {
    var p, tail := paras[0], paras[1..];
    var next := Extend(current, p);
    assert next[0] == current[0] && next[|next| - 1] == p[|p| - 1];
    PackedJoin(tail, size, next);
    assert Packed(paras, size, current) == Packed(tail, size, next);
    assert paras == [p] + tail;
    JoinExtend(current, p, tail);
  }

  /** Extending a non-empty buffer by a paragraph joins them with a blank line. */
  lemma JoinExtend(current: string, p: string, tail: seq<string>)
    requires current != ""
    ensures Join([Extend(current, p)] + tail) == Join([current] + ([p] + tail))
  {
    var next := current + Blank + p;
    JoinCons(current, [p] + tail);
    if tail == [] {
      assert [next] + tail == [next];
      assert [p] + tail == [p];
    } else {
      JoinCons(next, tail);
      JoinCons(p, tail);
      Associative(current + Blank, p, Blank);
      Associative(current + Blank, p + Blank, Join(tail));
    }
  }

  /**
   * Round trip: when every paragraph of the text is non-empty and has no leading or
   * trailing whitespace, joining the chunks with a blank line gives back the text.
   */
  lemma ChunkRoundTrip(text: string, size: int)
    requires forall p :: p in Split(text) ==> p != "" && Trim(p) == p
    ensures Join(ChunkText(text, size)) == text
  {
    var paras := Split(text);
    forall k | 0 <= k < |paras| ensures Clean(paras[k]) {
      assert paras[k] in paras;
    }
    assert Extend("", paras[0]) == paras[0];
    assert Packed(paras, size, "") == Packed(paras[1..], size, paras[0]);
    PackedJoin(paras[1..], size, paras[0]);
    PackedNonEmpty(paras[1..], size, paras[0]);
    var packed := Packed(paras, size, "");
    assert forall i :: 0 <= i < |packed| ==> packed[i] in packed;
    assert KeepNonEmpty(packed) == packed;
    assert [paras[0]] + paras[1..] == paras;
    JoinSplit(text);
  }

  /** Two paragraphs that fit together in `size` characters make one chunk, the whole text. */
  lemma TwoParagraphsFit(a: string, b: string, size: int)
    requires Clean(a) && Clean(b) && NoBlank(a) && NoBlank(b)
    requires |a| + |b| <= size
    ensures ChunkText(a + Blank + b, size) == [a + Blank + b]
  {
    SplitAfter(a, b);
    SplitNoBlank(b);
    var whole := a + Blank + b;
    assert Packed([a, b], size, "") == Packed([b], size, a);
    assert Packed([b], size, a) == Packed([], size, whole);
    assert Clean(whole);
    TrimClean(whole);
  }

  /** Two paragraphs too long to share a chunk make two chunks, one paragraph each. */
  lemma TwoParagraphsSplit(a: string, b: string, size: int)
    requires Clean(a) && Clean(b) && NoBlank(a) && NoBlank(b)
    requires |a| + |b| > size
    ensures ChunkText(a + Blank + b, size) == [a, b]
  {
    SplitAfter(a, b);
    SplitNoBlank(b);
    assert Packed([a, b], size, "") == Packed([b], size, a);
    assert Packed([b], size, a) == [Trim(a)] + Packed([], size, b);
    TrimClean(a);
    TrimClean(b);
    KeepsBoth(a, b);
  }

  /** Two non-empty chunks are both kept. */
  lemma KeepsBoth(a: string, b: string)
    requires a != "" && b != ""
    ensures KeepNonEmpty([a, b]) == [a, b]
  {
    assert forall i :: 0 <= i < |[a, b]| ==> [a, b][i] != "";
  }

  /** "Hello world\n\nSecond paragraph" with the default size is one chunk, the text itself. */
  lemma HelloWorldExample()
    ensures ChunkText("Hello world\n\nSecond paragraph", DefaultChunkSize) == ["Hello world\n\nSecond paragraph"]
  {
    var a, b := "Hello world", "Second paragraph";
    HelloLine();
    SecondLine();
    assert a + Blank + b == "Hello world\n\nSecond paragraph";
    TwoParagraphsFit(a, b, DefaultChunkSize);
  }

  /** The first paragraph of the example is one clean line. */
  lemma HelloLine()
    ensures Clean("Hello world") && NoBlank("Hello world")
  {
    assert '\n' !in "Hello world";
    SingleLine("Hello world");
  }

  /** The second paragraph of the example is one clean line. */
  lemma SecondLine()
    ensures Clean("Second paragraph") && NoBlank("Second paragraph")
  {
    assert '\n' !in "Second paragraph";
    SingleLine("Second paragraph");
  }

  /** A line without a line feed contains no blank line. */
  lemma SingleLine(s: string)
    requires '\n' !in s
    ensures NoBlank(s)
  {
    forall i | 0 <= i < |s| - 1 ensures s[i] != '\n' {
      assert s[i] in s;
    }
  }

  /** Two paragraphs of 400 characters each with the default size give two one-paragraph chunks. */
  lemma FourHundredExample()
    ensures var p := seq(400, _ => 'a');
            ChunkText(p + Blank + p, DefaultChunkSize) == [p, p]
  {
    var p := seq(400, _ => 'a');
    TwoParagraphsSplit(p, p, DefaultChunkSize);
  }
}
