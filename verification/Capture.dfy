/** Keeping the beginning and the end of a command's output within a fixed bound. */
module Capture {
  import opened Prelude
  import opened Lines

  const MAX_AUDIT_STREAM_BYTES: nat := 10 * 1024 * 1024
  const HEAD_LIMIT: nat := MAX_AUDIT_STREAM_BYTES / 2
  const TAIL_LIMIT: nat := MAX_AUDIT_STREAM_BYTES - HEAD_LIMIT

  /** The longest allowed prefix of a stream. */
  function HeadOf(stream: seq<byte>): seq<byte> {
    stream[..Min(|stream|, HEAD_LIMIT)]
  }

  /** The longest allowed suffix of what the head leaves. */
  function TailOf(stream: seq<byte>): seq<byte> {
    var rest := stream[Min(|stream|, HEAD_LIMIT)..];
    rest[Max(0, |rest| - TAIL_LIMIT)..]
  }

  class BoundedCapture {
    var head: seq<byte>
    var tail: seq<byte>
    var totalBytes: nat
    /** Everything appended so far. */
    ghost var stream: seq<byte>

    /** What is held depends on the bytes appended, not on how they were cut up. */
    ghost predicate Valid()
      reads this
    {
      head == HeadOf(stream) && tail == TailOf(stream) && totalBytes == |stream|
    }

    constructor ()
      ensures Valid() && stream == []
    {
      head, tail, totalBytes, stream := [], [], 0, [];
    }

    method Append(chunk: seq<byte>)
      requires Valid()
      modifies this
      ensures Valid() && stream == old(stream) + chunk
    {
      hide HeadOf, TailOf;
      HeadSize(stream);
      HeadGrows(stream, chunk);
      TailGrows(stream, chunk);
      totalBytes := totalBytes + |chunk|;
      stream := stream + chunk;
      var rest := chunk;
      if |head| < HEAD_LIMIT {
        var accepted := Min(|chunk|, HEAD_LIMIT - |head|);
        head := head + chunk[..accepted];
        rest := chunk[accepted..];
      }
      if rest != [] {
        tail := tail + rest;
        if |tail| > TAIL_LIMIT {
          tail := tail[|tail| - TAIL_LIMIT..];
        }
      }
    }

    /** Up to the limit nothing is lost; above it, the number of omitted bytes that is
        reported is exactly the length of the one gap between head and tail. */
    lemma RetainedExactly()
      requires Valid()
      ensures totalBytes <= MAX_AUDIT_STREAM_BYTES ==> head + tail == stream
      ensures totalBytes > MAX_AUDIT_STREAM_BYTES ==>
                var omitted := totalBytes - |head| - |tail|;
                && omitted == totalBytes - MAX_AUDIT_STREAM_BYTES
                && head + stream[|head|..|head| + omitted] + tail == stream
    {
      RetainedParts(stream);
    }
  }

  lemma HeadSize(stream: seq<byte>)
    ensures |HeadOf(stream)| <= HEAD_LIMIT && |TailOf(stream)| <= TAIL_LIMIT
    ensures |HeadOf(stream)| < HEAD_LIMIT ==> TailOf(stream) == []
  {
  }

  lemma HeadGrows(before: seq<byte>, chunk: seq<byte>)
    ensures HeadOf(before + chunk) ==
            HeadOf(before) + chunk[..Min(|chunk|, HEAD_LIMIT - |HeadOf(before)|)]
  {
  }

  /** What a chunk leaves for the tail, and the tail after it. */
  lemma TailGrows(before: seq<byte>, chunk: seq<byte>)
    ensures var rest := chunk[Min(|chunk|, HEAD_LIMIT - |HeadOf(before)|)..];
            var more := TailOf(before) + rest;
            TailOf(before + chunk) == more[Max(0, |more| - TAIL_LIMIT)..]
  {
    var a := Min(|before|, HEAD_LIMIT);
    var b := Min(|before + chunk|, HEAD_LIMIT);
    var rest := chunk[Min(|chunk|, HEAD_LIMIT - a)..];
    assert (before + chunk)[b..] == before[a..] + rest;
    SuffixGrows(before[a..], rest, TAIL_LIMIT);
  }

  lemma SuffixGrows(s: seq<byte>, t: seq<byte>, limit: nat)
    ensures var kept := s[Max(0, |s| - limit)..] + t;
            (s + t)[Max(0, |s + t| - limit)..] == kept[Max(0, |kept| - limit)..]
  {
  }

  lemma RetainedParts(stream: seq<byte>)
    ensures |stream| <= MAX_AUDIT_STREAM_BYTES ==> HeadOf(stream) + TailOf(stream) == stream
    ensures |stream| > MAX_AUDIT_STREAM_BYTES ==>
              var omitted := |stream| - |HeadOf(stream)| - |TailOf(stream)|;
              && omitted == |stream| - MAX_AUDIT_STREAM_BYTES
              && HeadOf(stream) + stream[|HeadOf(stream)|..|HeadOf(stream)| + omitted] + TailOf(stream) == stream
  {
    var h := Min(|stream|, HEAD_LIMIT);
    assert stream == stream[..h] + stream[h..];
    if |stream| > MAX_AUDIT_STREAM_BYTES {
      assert TailOf(stream) == stream[|stream| - TAIL_LIMIT..];
    } else {
      assert TailOf(stream) == stream[h..];
    }
  }
}
