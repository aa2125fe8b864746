/** Reading a byte stream line by line with a bound on every read. */
module Lines {
  import opened Prelude

  const LF: byte := 10
  const FILL: byte := 120

  /** A physical line without its line feed, and whether it had one. */
  datatype Line = Line(bytes: seq<byte>, ended: bool)

  /** Where the first line ends: at its line feed, or at the end of the bytes. */
  function LineEnd(s: seq<byte>): (n: nat)
    ensures n <= |s| && forall i :: 0 <= i < n ==> s[i] != LF
    ensures n < |s| ==> s[n] == LF
  {
    if s == [] || s[0] == LF then 0 else 1 + LineEnd(s[1..])
  }

  /** Plain newline splitting. */
  function Physical(s: seq<byte>): seq<Line> {
    if s == [] then []
    else
      var n := LineEnd(s);
      if n < |s| then [Line(s[..n], true)] + Physical(s[n + 1..]) else [Line(s, false)]
  }

  function Rejoin(lines: seq<Line>): seq<byte> {
    if lines == [] then []
    else lines[0].bytes + (if lines[0].ended then [LF] else []) + Rejoin(lines[1..])
  }

  lemma RejoinHead(line: Line, lines: seq<Line>)
    ensures Rejoin([line] + lines) == line.bytes + (if line.ended then [LF] else []) + Rejoin(lines)
  {
    assert ([line] + lines)[1..] == lines;
  }

  /** Splitting loses nothing. */
  lemma {:induction false} PhysicalRejoins(s: seq<byte>)
    ensures Rejoin(Physical(s)) == s
    decreases |s|
  {
    hide Rejoin;
    if s == [] {
      RejoinNothing();
    } else {
      var n := LineEnd(s);
      if n < |s| {
        PhysicalRejoins(s[n + 1..]);
        RejoinHead(Line(s[..n], true), Physical(s[n + 1..]));
        assert s == s[..n] + [LF] + s[n + 1..];
      } else {
        RejoinHead(Line(s, false), []);
        RejoinNothing();
        assert [Line(s, false)] + [] == [Line(s, false)];
        assert s + [] + [] == s;
      }
    }
  }

  lemma RejoinNothing()
    ensures Rejoin([]) == []
  {
  }

  lemma LineEndIs(s: seq<byte>, n: nat)
    requires n <= |s| && LF !in s[..n] && (n < |s| ==> s[n] == LF)
    ensures LineEnd(s) == n
  {
    forall i | 0 <= i < n ensures s[i] != LF {
      assert s[i] in s[..n];
    }
  }

  /** The first line of a stream that starts with a whole line. */
  lemma PhysicalHead(bytes: seq<byte>, rest: seq<byte>)
    requires LF !in bytes
    ensures Physical(bytes + [LF] + rest) == [Line(bytes, true)] + Physical(rest)
  {
    var s := bytes + [LF] + rest;
    assert s[..|bytes|] == bytes && s[|bytes| + 1..] == rest;
    LineEndIs(s, |bytes|);
  }

  // ----- bounded reading -----

  datatype Item = Item(number: nat, bytes: seq<byte>, complete: bool)

  /** What is reported of a line: itself, or a filler when it exceeds the limit. */
  function Shown(limit: nat, number: nat, line: Line): Item {
    if |line.bytes| > limit then Item(number, seq<byte>(limit + 1, _ => FILL), true)
    else Item(number, line.bytes, line.ended)
  }

  /** A line within the limit is shown as it is, with its number; of a longer one only that
      it is longer is shown, whether or not it ended. */
  lemma ShownExactly(limit: nat, number: nat, line: Line)
    ensures var item := Shown(limit, number, line);
            && item.number == number
            && (if |line.bytes| > limit then |item.bytes| == limit + 1 && item.complete
                else item.bytes == line.bytes && item.complete == line.ended)
  {
  }

  function ShownAll(limit: nat, lines: seq<Line>): (items: seq<Item>)
    ensures |items| == |lines|
    ensures forall i :: 0 <= i < |items| ==> items[i] == Shown(limit, i + 1, lines[i])
  {
    if lines == [] then []
    else ShownAll(limit, lines[..|lines| - 1]) + [Shown(limit, |lines|, lines[|lines| - 1])]
  }

  lemma ShownAllNext(limit: nat, lines: seq<Line>, line: Line)
    ensures ShownAll(limit, lines + [line]) == ShownAll(limit, lines) + [Shown(limit, |lines| + 1, line)]
  {
    assert (lines + [line])[..|lines|] == lines;
  }

  class ByteReader {
    const content: seq<byte>
    var position: nat
    /** The most bytes asked for at once. */
    var mostRead: nat

    constructor (content: seq<byte>)
      ensures this.content == content && position == mostRead == 0
    {
      this.content, position, mostRead := content, 0, 0;
    }

    ghost predicate Valid()
      reads this
    {
      position <= |content|
    }

    /** Bytes up to and including the next line feed, at most `limit` of them. */
    method ReadLine(limit: nat) returns (raw: seq<byte>)
      requires Valid() && limit > 0
      modifies this
      ensures Valid() && |raw| <= limit && mostRead == Max(old(mostRead), limit)
      ensures position == old(position) + |raw| && raw == content[old(position)..position]
      ensures forall i :: 0 <= i < |raw| - 1 ==> raw[i] != LF
      ensures raw == [] <==> old(position) == |content|
      ensures |raw| < limit && position < |content| ==> raw != [] && raw[|raw| - 1] == LF
    {
      ghost var start := position;
      raw, mostRead := [], Max(mostRead, limit);
      while |raw| < limit && position < |content| && (raw == [] || raw[|raw| - 1] != LF)
        invariant Valid() && |raw| <= limit && start <= position && mostRead == Max(old(mostRead), limit)
        invariant position == start + |raw| && raw == content[start..position]
        invariant forall i :: 0 <= i < |raw| - 1 ==> raw[i] != LF
      {
        raw := raw + [content[position]];
        position := position + 1;
      }
    }
  }

  predicate EndsLine(raw: seq<byte>) {
    raw != [] && raw[|raw| - 1] == LF
  }

  /** One item for every physical line, whatever its length. */
  method BoundedLines(stream: ByteReader, limit: nat) returns (items: seq<Item>)
    requires stream.Valid() && stream.position == 0
    modifies stream
    ensures items == ShownAll(limit, Physical(stream.content))
    ensures stream.mostRead <= Max(old(stream.mostRead), limit + 1)
  {
    hide Physical, ShownAll;
    var content := stream.content;
    items := [];
    ghost var done: seq<Line> := [];
    assert content[0..] == content;
    NothingShown(limit);
    while true
      invariant stream.Valid() && stream.mostRead <= Max(old(stream.mostRead), limit + 1)
      invariant Physical(content) == done + Physical(content[stream.position..])
      invariant items == ShownAll(limit, done) && |items| == |done|
      decreases |content| - stream.position
    {
      ghost var start := stream.position;
      var item; ghost var line;
      item, line := NextItem(stream, limit, |items| + 1);
      if item == None {
        assert content[start..] == [];
        NothingShown(limit);
        return;
      }
      ShownAllNext(limit, done, line);
      ConcatAssociates(done, [line], Physical(content[stream.position..]));
      done := done + [line];
      items := items + [item.value];
    }
  }

  lemma NothingShown(limit: nat)
    ensures ShownAll(limit, []) == [] && Physical([]) == []
  {
  }

  /** Read one physical line, at most `limit + 1` bytes at a time; None at the end. */
  method NextItem(stream: ByteReader, limit: nat, number: nat) returns (item: Option<Item>, ghost line: Line)
    requires stream.Valid()
    modifies stream
    ensures stream.Valid() && stream.mostRead == Max(old(stream.mostRead), limit + 1)
    ensures item == None <==> old(stream.position) == |stream.content|
    ensures item.Some? ==>
              && old(stream.position) < stream.position
              && item.value == Shown(limit, number, line)
              && Physical(stream.content[old(stream.position)..]) == [line] + Physical(stream.content[stream.position..])
  {
    hide Physical;
    ghost var content, start := stream.content, stream.position;
    line := Line([], false);
    var raw := stream.ReadLine(limit + 1);
    if raw == [] {
      return None, line;
    }
    LongerLine(content, start, start, stream.position, raw);
    if |raw| > limit && !EndsLine(raw) {
      while raw != [] && !EndsLine(raw)
        invariant stream.Valid() && stream.position > start + limit && stream.mostRead == Max(old(stream.mostRead), limit + 1)
        invariant Reading(content, start, stream.position, raw)
        invariant EndsLine(raw) ==> stream.position > start + limit + 1
        decreases |content| - stream.position, |raw|
      {
        ghost var before := stream.position;
        raw := stream.ReadLine(limit + 1);
        LongerLine(content, start, before, stream.position, raw);
      }
      line := NextLine(content, start, stream.position, EndsLine(raw));
      assert |line.bytes| > limit;
      return Some(Item(number, seq<byte>(limit + 1, _ => FILL), true)), line;
    }
    var complete := EndsLine(raw);
    var bytes := if complete then raw[..|raw| - 1] else raw;
    line := NextLine(content, start, stream.position, complete);
    assert bytes == line.bytes && |bytes| <= limit;
    return Some(Item(number, bytes, complete)), line;
  }

  /** Everything read of the current line, which `raw` was the last part of. */
  ghost predicate Reading(content: seq<byte>, start: nat, position: nat, raw: seq<byte>) {
    && start <= position <= |content|
    && (EndsLine(raw) ==> start < position && content[position - 1] == LF && LF !in content[start..position - 1])
    && (!EndsLine(raw) ==> LF !in content[start..position])
    && (raw == [] ==> position == |content|)
  }

  /** Another read without a line feed in between makes the same line longer. */
  lemma LongerLine(content: seq<byte>, start: nat, before: nat, after: nat, raw: seq<byte>)
    requires start <= before <= after <= |content| && raw == content[before..after]
    requires LF !in content[start..before]
    requires forall i :: 0 <= i < |raw| - 1 ==> raw[i] != LF
    requires raw == [] ==> after == |content|
    ensures Reading(content, start, after, raw)
  {
    var stop := after - if EndsLine(raw) then 1 else 0;
    forall i | start <= i < stop ensures content[i] != LF {
      assert i < before ==> content[i] in content[start..before];
      assert i >= before ==> content[i] == raw[i - before];
    }
  }

  /** The bytes between two positions are the next physical line. */
  lemma NextLine(content: seq<byte>, start: nat, stop: nat, ended: bool) returns (line: Line)
    requires start < stop <= |content|
    requires ended ==> content[stop - 1] == LF && LF !in content[start..stop - 1]
    requires !ended ==> stop == |content| && LF !in content[start..stop]
    ensures line == if ended then Line(content[start..stop - 1], true) else Line(content[start..], false)
    ensures Physical(content[start..]) == [line] + Physical(content[stop..])
  {
    var s := content[start..];
    if ended {
      line := Line(content[start..stop - 1], true);
      assert s == content[start..stop - 1] + [LF] + content[stop..];
      PhysicalHead(content[start..stop - 1], content[stop..]);
    } else {
      line := Line(s, false);
      assert s[..|s|] == s;
      LineEndIs(s, |s|);
      assert content[stop..] == [];
    }
  }
}
