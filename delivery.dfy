/**
 * Posting the report to Discord (`send_to_discord`): a message longer than
 * 1900 characters is cut into consecutive 1900-character slices, every slice
 * after the first is prefixed with its part number, and the parts are posted
 * in order until one is not acknowledged with 204.
 *
 * The webhook is a parameter: `respond(k)` is the status code answered to the
 * k-th post (counting from 0).
 */
module Delivery {
  import opened Text

  /** The longest message posted in one piece. */
  const MaxLength: nat := 1900
  /** The status code of an accepted webhook post. */
  const Acknowledged: int := 204

  /** How many slices `range(0, len(m), 1900)` yields. */
  function ChunkCount(m: string): nat
  {
    (|m| + MaxLength - 1) / MaxLength
  }

  /** `m[i*1900:i*1900+1900]`. */
  function Chunk(m: string, i: nat): string
    requires i < ChunkCount(m)
  {
    m[i * MaxLength..Min(i * MaxLength + MaxLength, |m|)]
  }

  /** `[message[i:i+1900] for i in range(0, len(message), 1900)]`. */
  function Chunks(m: string): (parts: seq<string>)
    ensures |parts| == ChunkCount(m)
  {
    seq(ChunkCount(m), i requires 0 <= i < ChunkCount(m) => Chunk(m, i))
  }

  function Concat(parts: seq<string>): string
  {
    if parts == [] then [] else parts[0] + Concat(parts[1..])
  }

  /** A long message is its first slice followed by the slices of the rest. */
  lemma ChunksUnfold(m: string)
    requires |m| > MaxLength
    ensures Chunks(m) == [m[..MaxLength]] + Chunks(m[MaxLength..])
  {
    var parts, rest := Chunks(m), Chunks(m[MaxLength..]);
    assert |parts| == |rest| + 1;
    forall i | 0 <= i < |rest|
      ensures parts[i + 1] == rest[i]
    {
      assert m[MaxLength..][i * MaxLength..Min(i * MaxLength + MaxLength, |m| - MaxLength)]
          == m[(i + 1) * MaxLength..Min((i + 1) * MaxLength + MaxLength, |m|)];
    }
  }

  /** Gluing the slices back together gives the message. */
  lemma {:induction false} ChunksConcat(m: string)
    ensures Concat(Chunks(m)) == m
    decreases |m|
  {
    if |m| > MaxLength {
      ChunksUnfold(m);
      ChunksConcat(m[MaxLength..]);
      assert Chunks(m)[1..] == Chunks(m[MaxLength..]);
      assert m == m[..MaxLength] + m[MaxLength..];
    } else if m != [] {
      assert (|m| + MaxLength - 1) / MaxLength == 1;
      assert Chunks(m)[0] == m[0..|m|] == m;
      assert Chunks(m) == [m];
      assert Concat([m]) == m + Concat([]);
    }
  }

  /** Every slice is non-empty and at most 1900 characters long; all but the last are exactly 1900. */
  lemma ChunkSizes(m: string, i: int)
    requires 0 <= i < |Chunks(m)|
    ensures 1 <= |Chunks(m)[i]| <= MaxLength
    ensures i < |Chunks(m)| - 1 ==> |Chunks(m)[i]| == MaxLength
  {
  }

  /** `f"**[Continuação {i+1}]**\n\n"`: the marker in front of part `i`, numbered from 1. */
  function ContinuationPrefix(i: nat): (p: string)
    ensures |p| > 0
  {
    "**[Continuação " + NumberText(i + 1) + "]**\n\n"
  }

  /** Slice `i` as posted: after the first, behind its continuation marker. */
  function Post(m: string, i: nat): string
    requires i < ChunkCount(m)
  {
    if i > 0 then ContinuationPrefix(i) + Chunk(m, i) else Chunk(m, i)
  }

  /** The contents posted for a message: the message itself, or its slices with the continuation markers. */
  function Outgoing(m: string): (posts: seq<string>)
    ensures |posts| >= 1
  {
    if |m| <= MaxLength then [m]
    else seq(ChunkCount(m), i requires 0 <= i < ChunkCount(m) => Post(m, i))
  }

  /** The post of part `i` with its continuation marker removed. */
  function Unprefixed(post: string, i: nat): string
  {
    var p := ContinuationPrefix(i);
    if i > 0 && |p| <= |post| && post[..|p|] == p then post[|p|..] else post
  }

  /** What a reader gets by concatenating the posts and ignoring the continuation markers. */
  function Reassemble(posts: seq<string>): string
  {
    Concat(seq(|posts|, i requires 0 <= i < |posts| => Unprefixed(posts[i], i)))
  }

  /**
   * The posts of a message: one unprefixed post when it fits, otherwise the
   * slices in order, each within the limit, only the ones after the first
   * marked; reading them back without the markers gives the message.
   */
  lemma OutgoingParts(m: string)
    ensures |m| <= MaxLength ==> Outgoing(m) == [m]
    ensures |m| > MaxLength ==>
              && |Outgoing(m)| == |Chunks(m)| >= 2
              && Outgoing(m)[0] == Chunks(m)[0]
              && forall i :: 0 < i < |Outgoing(m)| ==> Outgoing(m)[i] == ContinuationPrefix(i) + Chunks(m)[i]
    ensures Reassemble(Outgoing(m)) == m
  {
    var posts := Outgoing(m);
    if |m| <= MaxLength {
      assert seq(1, i requires 0 <= i < 1 => Unprefixed(posts[i], i)) == [m];
      assert Concat([m]) == m + Concat([]);
    } else {
      var parts := Chunks(m);
      assert seq(|posts|, i requires 0 <= i < |posts| => Unprefixed(posts[i], i)) == parts by {
        forall i | 0 <= i < |posts|
          ensures Unprefixed(posts[i], i) == parts[i]
        {
          if i > 0 {
            var p := ContinuationPrefix(i);
            assert (p + parts[i])[..|p|] == p;
            assert (p + parts[i])[|p|..] == parts[i];
          }
        }
      }
      ChunksConcat(m);
    }
  }

  /** The part number in a continuation marker reads back as `i + 1`. */
  lemma ContinuationNumber(i: nat)
    ensures var p := ContinuationPrefix(i);
            var digits := p[|"**[Continuação "|..|p| - |"]**\n\n"|];
            (forall k :: 0 <= k < |digits| ==> IsDigit(digits[k])) && DecimalValue(digits) == i + 1
  {
    var p := ContinuationPrefix(i);
    assert p[|"**[Continuação "|..|p| - |"]**\n\n"|] == NumberText(i + 1);
    DecimalRoundTrip(i + 1);
  }

  // ---------------------------------------------------------------------------
  // Posting

  /**
   * `send_to_discord`: posts the parts in order, going on while they are
   * acknowledged and stopping at the first one that is not; true exactly
   * when every part was acknowledged.
   */
  method SendToDiscord(message: string, respond: nat -> int) returns (ok: bool, posted: seq<string>)
    ensures 1 <= |posted| <= |Outgoing(message)| && posted == Outgoing(message)[..|posted|]
    ensures forall k :: 0 <= k < |posted| - 1 ==> respond(k) == Acknowledged
    ensures ok <==> posted == Outgoing(message) && respond(|posted| - 1) == Acknowledged
    ensures |posted| < |Outgoing(message)| ==> respond(|posted| - 1) != Acknowledged
    ensures ok <==> forall k :: 0 <= k < |Outgoing(message)| ==> respond(k) == Acknowledged
  {
    if |message| > MaxLength {
      ok, posted := SendParts(message, respond);
    } else {
      posted := [message];
      ok := respond(0) == Acknowledged;
    }
  }

  /** The loop over the slices of a long message. */
  method SendParts(message: string, respond: nat -> int) returns (ok: bool, posted: seq<string>)
    requires |message| > MaxLength
    ensures 1 <= |posted| <= |Outgoing(message)| && posted == Outgoing(message)[..|posted|]
    ensures forall k :: 0 <= k < |posted| - 1 ==> respond(k) == Acknowledged
    ensures ok <==> posted == Outgoing(message) && respond(|posted| - 1) == Acknowledged
    ensures |posted| < |Outgoing(message)| ==> respond(|posted| - 1) != Acknowledged
    ensures ok <==> forall k :: 0 <= k < |Outgoing(message)| ==> respond(k) == Acknowledged
  {
    var parts := Chunks(message);
    ghost var out := Outgoing(message);
    assert |out| == |parts| == ChunkCount(message);
    posted := [];
    var i := 0;
    while i < |parts|
      invariant 0 <= i <= |parts|
      invariant posted == out[..i]
      invariant forall k :: 0 <= k < i ==> respond(k) == Acknowledged
    {
      var part := parts[i];
      if i > 0 {
        part := ContinuationPrefix(i) + part;
      }
      assert part == Post(message, i) == out[i];
      assert out[..i + 1] == out[..i] + [part];
      posted := posted + [part];
      if respond(i) != Acknowledged {
        return false, posted;
      }
      i := i + 1;
    }
    assert out[..i] == out;
    return true, posted;
  }
}
