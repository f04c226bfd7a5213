/** Cutting long messages into chunks (core/types.go). Text is a sequence of bytes, as Go's `len` and
    slicing count it. */
module Chunks {
  import opened Text

  type byte = b: int | 0 <= b < 256

  const NEWLINE: byte := 10

  /** strings.LastIndex of a newline: -1 if there is none. */
  function LastNewline(text: seq<byte>): (i: int)
    ensures -1 <= i < |text|
    ensures i >= 0 ==> text[i] == NEWLINE
    ensures forall k :: i < k < |text| ==> text[k] != NEWLINE
  {
    if text == [] then -1
    else if text[|text| - 1] == NEWLINE then |text| - 1
    else LastNewline(text[..|text| - 1])
  }

  function CutAt(text: seq<byte>, maxLen: nat): (cut: nat)
    requires |text| > maxLen
    ensures cut <= maxLen && (maxLen > 0 ==> cut > 0)
  {
    var i := LastNewline(text[..maxLen]);
    if i > maxLen / 2 then i + 1 else maxLen
  }

  function Chunks(text: seq<byte>, maxLen: nat): (chunks: seq<seq<byte>>)
    requires maxLen > 0 || text == []
    ensures chunks != []
    decreases |text|
  {
    if |text| <= maxLen then [text]
    else
      var cut := CutAt(text, maxLen);
      [text[..cut]] + Chunks(text[cut..], maxLen)
  }

  /** A chunk of `size` bytes is cut off `text` behind the last newline among the first `maxLen` bytes, if
      that leaves more than half of them in the chunk, and else after `maxLen` bytes. */
  predicate BestCut(text: seq<byte>, maxLen: nat, size: nat) {
    && size <= maxLen < |text|
    && ((size > maxLen / 2 + 1 && text[size - 1] == NEWLINE && (forall k :: size <= k < maxLen ==> text[k] != NEWLINE))
        || (size == maxLen && (forall k :: maxLen / 2 < k < maxLen ==> text[k] != NEWLINE)))
  }

  lemma CutIsBest(text: seq<byte>, maxLen: nat)
    requires |text| > maxLen > 0
    ensures BestCut(text, maxLen, CutAt(text, maxLen))
  {
    var head := text[..maxLen];
    assert forall k :: 0 <= k < maxLen ==> text[k] == head[k];
  }

  /** The chunks make up the text, none is too long, and all cuts are the best ones. */
  lemma {:induction false} ChunksMeaning(text: seq<byte>, maxLen: nat)
    requires maxLen > 0 || text == []
    ensures Concat(Chunks(text, maxLen)) == text
    ensures forall i :: 0 <= i < |Chunks(text, maxLen)| ==> |Chunks(text, maxLen)[i]| <= maxLen
    ensures forall i :: 0 <= i < |Chunks(text, maxLen)| - 1 ==>
              BestCut(Concat(Chunks(text, maxLen)[i..]), maxLen, |Chunks(text, maxLen)[i]|)
    decreases |text|
  {
    var chunks := Chunks(text, maxLen);
    if |text| > maxLen {
      var cut := CutAt(text, maxLen);
      var rest := Chunks(text[cut..], maxLen);
      CutIsBest(text, maxLen);
      ChunksMeaning(text[cut..], maxLen);
      assert chunks[1..] == rest && text[..cut] + text[cut..] == text;
      forall i | 0 <= i < |chunks| - 1 ensures BestCut(Concat(chunks[i..]), maxLen, |chunks[i]|) {
        if i == 0 {
          assert chunks[0..] == chunks;
        } else {
          assert chunks[i..] == rest[i - 1..];
        }
      }
    } else {
      assert Concat([text]) == text + Concat([]);
    }
  }

  /** Every chunk but the last ends in a newline or is full. */
  lemma ChunkEnds(text: seq<byte>, maxLen: nat, i: nat)
    requires (maxLen > 0 || text == []) && i < |Chunks(text, maxLen)| - 1
    ensures var chunk := Chunks(text, maxLen)[i];
            |chunk| == maxLen || (|chunk| > maxLen / 2 + 1 && chunk[|chunk| - 1] == NEWLINE)
  {
    var chunks := Chunks(text, maxLen);
    ChunksMeaning(text, maxLen);
    assert Concat(chunks[i..]) == chunks[i] + Concat(chunks[i..][1..]);
    assert BestCut(Concat(chunks[i..]), maxLen, |chunks[i]|);
  }

  function Times(n: nat, k: nat): nat {
    if n == 0 then 0 else Times(n - 1, k) + k
  }

  lemma {:induction false} TimesIsProduct(n: nat, k: nat)
    ensures Times(n, k) == n * k
  {
    if n > 0 {
      TimesIsProduct(n - 1, k);
      assert n * k == (n - 1) * k + k;
    }
  }

  lemma {:induction false} EnoughText(text: seq<byte>, maxLen: nat)
    requires maxLen > 0
    ensures Times(|Chunks(text, maxLen)| - 1, maxLen / 2 + 1) + (if text == [] then 0 else 1) <= |text|
    decreases |text|
  {
    if |text| > maxLen {
      EnoughText(text[CutAt(text, maxLen)..], maxLen);
    }
  }

  /** Each chunk but the last holds more than half of `maxLen` bytes, so there are not many. */
  lemma FewChunks(text: seq<byte>, maxLen: nat)
    requires maxLen > 0
    ensures (|Chunks(text, maxLen)| - 1) * (maxLen / 2 + 1) <= |text|
    ensures text != [] ==> (|Chunks(text, maxLen)| - 1) * (maxLen / 2 + 1) < |text|
  {
    EnoughText(text, maxLen);
    TimesIsProduct(|Chunks(text, maxLen)| - 1, maxLen / 2 + 1);
  }

  /** With `maxLen` 0 and text left, a pass of the loop would leave the text as it is: SplitChunks has to
      be called with a positive `maxLen`. */
  lemma ZeroMakesNoProgress(text: seq<byte>)
    requires text != []
    ensures text[CutAt(text, 0)..] == text
  {
    assert CutAt(text, 0) == 0;
  }

  lemma ChunksStep(done: seq<seq<byte>>, rest: seq<byte>, maxLen: nat)
    requires |rest| > maxLen > 0
    ensures var cut := CutAt(rest, maxLen);
            done + [rest[..cut]] + Chunks(rest[cut..], maxLen) == done + Chunks(rest, maxLen)
  {
  }

  method SplitChunks(text: seq<byte>, maxLen: nat) returns (chunks: seq<seq<byte>>)
    requires maxLen > 0 || text == []
    ensures chunks == Chunks(text, maxLen)
  {
    if |text| <= maxLen {
      return [text];
    }
    chunks := [];
    ghost var all := Chunks(text, maxLen);
    var rest := text;
    while |rest| > 0
      invariant rest != [] && chunks + Chunks(rest, maxLen) == all
      decreases |rest|
    {
      if |rest| <= maxLen {
        chunks := chunks + [rest];
        break;
      }
      var cut := maxLen;
      var idx := LastNewline(rest[..maxLen]);
      if idx > maxLen / 2 {
        cut := idx + 1;
      }
      ChunksStep(chunks, rest, maxLen);
      chunks := chunks + [rest[..cut]];
      rest := rest[cut..];
    }
  }
}
