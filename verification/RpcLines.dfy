/** The bounded line reader over the worker's output, which arrives in chunks of any size. */
module RpcLines {
  type Byte = n: int | 0 <= n < 256

  const LF: Byte := 10
  const CR: Byte := 13
  const LIMIT := 1024 * 1024

  datatype Outcome = Line(text: seq<Byte>) | Ended | TooLong | BadText

  // ----- What one call makes of the unread stream -----

  /** The length of the first line, without its newline. */
  function Content(s: seq<Byte>): (n: nat)
    ensures n <= |s| && LF !in s[..n] && (n < |s| ==> s[n] == LF)
  {
    if s == [] || s[0] == LF then 0
    else
      var n := Content(s[1..]);
      assert s[..n + 1] == [s[0]] + s[1..][..n];
      n + 1
  }

  /** One trailing carriage return is not part of the text. */
  function Stripped(raw: seq<Byte>): seq<Byte> {
    if raw != [] && raw[|raw| - 1] == CR then raw[..|raw| - 1] else raw
  }

  function Judged(raw: seq<Byte>, utf8: seq<Byte> -> bool): Outcome {
    if |raw| > LIMIT then TooLong
    else if !utf8(Stripped(raw)) then BadText
    else Line(Stripped(raw))
  }

  function Next(s: seq<Byte>, utf8: seq<Byte> -> bool): Outcome {
    if s == [] then Ended else Judged(s[..Content(s)], utf8)
  }

  function Rest(s: seq<Byte>): seq<Byte> {
    if Content(s) < |s| then s[Content(s) + 1..] else []
  }

  /** A line over a mebibyte is too long; of any other one carriage return at its end is dropped, and
      what is left has to be text. */
  lemma JudgedExactly(raw: seq<Byte>, utf8: seq<Byte> -> bool)
    ensures |raw| > 1_048_576 <==> Judged(raw, utf8).TooLong?
    ensures |raw| <= 1_048_576 ==>
              var text := if raw != [] && raw[|raw| - 1] == 13 then raw[..|raw| - 1] else raw;
              Judged(raw, utf8) == if utf8(text) then Line(text) else BadText
  {
  }

  lemma NotBefore(s: seq<Byte>, n: nat, k: nat)
    requires k < n <= |s| && LF !in s[..n]
    ensures s[k] != LF
  {
    assert s[..n][k] == s[k];
  }

  lemma ContentIs(s: seq<Byte>, n: nat)
    requires n <= |s| && LF !in s[..n] && (n < |s| ==> s[n] == LF)
    ensures Content(s) == n
  {
    if Content(s) < n {
      NotBefore(s, n, Content(s));
    } else if n < Content(s) {
      NotBefore(s, Content(s), n);
    }
  }

  /** A line goes on through what has no newline. */
  lemma ContentContinues(a: seq<Byte>, b: seq<Byte>)
    requires LF !in a
    ensures Content(a + b) == |a| + Content(b)
  {
    var n := |a| + Content(b);
    assert (a + b)[..n] == a + b[..Content(b)];
    ContentIs(a + b, n);
  }

  /** And ends at the first newline, whatever follows. */
  lemma ContentEnds(a: seq<Byte>, b: seq<Byte>)
    requires Content(a) < |a|
    ensures Content(a + b) == Content(a)
  {
    assert (a + b)[..Content(a)] == a[..Content(a)];
    ContentIs(a + b, Content(a));
  }

  function Flat(chunks: seq<seq<Byte>>): seq<Byte> {
    if chunks == [] then [] else chunks[0] + Flat(chunks[1..])
  }

  /** A buffered reader: the buffers still to come, none of them empty. */
  class Reader {
    var chunks: seq<seq<Byte>>

    constructor (chunks: seq<seq<Byte>>)
      requires [] !in chunks
      ensures Valid() && Unread() == Flat(chunks)
    {
      this.chunks := chunks;
    }

    predicate Valid()
      reads this
    {
      [] !in chunks
    }

    function Unread(): seq<Byte>
      reads this
    {
      Flat(chunks)
    }

    method FillBuf() returns (available: seq<Byte>)
      requires Valid()
      ensures available <= Unread() && (available == [] <==> Unread() == [])
      ensures available == if chunks == [] then [] else chunks[0]
    {
      available := if chunks == [] then [] else chunks[0];
    }

    method Consume(n: nat)
      requires Valid() && chunks != [] && n <= |chunks[0]|
      modifies this
      ensures Valid() && Unread() == old(Unread())[n..]
    {
      var left := chunks[0][n..];
      assert Flat(chunks)[n..] == left + Flat(chunks[1..]);
      chunks := if left == [] then chunks[1..] else [left] + chunks[1..];
    }

    /** The buffers up to the first newline; it ends early when the line is over the limit. */
    method Gather() returns (bytes: seq<Byte>, fits: bool)
      requires Valid()
      modifies this
      ensures Valid() && (fits <==> Content(old(Unread())) <= LIMIT)
      ensures fits ==> bytes == old(Unread())[..Content(old(Unread()))] && Unread() == Rest(old(Unread()))
    {
      bytes, fits := [], true;
      ghost var s := Unread();
      while true
        invariant Valid() && |bytes| <= LIMIT && s == bytes + Unread() && LF !in bytes
        decreases |Unread()|
      {
        var available := FillBuf();
        if available == [] {
          LastLine(s, bytes);
          return;
        }
        var content := Content(available);
        ghost var left := Unread();
        OneBuffer(s, bytes, left, available);
        if |bytes| + content > LIMIT {
          return bytes, false;
        }
        bytes := bytes + available[..content];
        if content < |available| {
          Consume(content + 1);
          assert Unread() == left[content + 1..] == Rest(s);
          return bytes, true;
        }
        Consume(content);
        assert Unread() == left[content..];
      }
    }

    /** One call gives the first line of the unread stream, however the stream is cut into chunks. */
    method NextRpcLine(utf8: seq<Byte> -> bool) returns (outcome: Outcome)
      requires Valid()
      modifies this
      ensures Valid() && outcome == Next(old(Unread()), utf8)
      ensures outcome != TooLong ==> Unread() == Rest(old(Unread()))
    {
      var available := FillBuf();
      if available == [] {
        return Ended;
      }
      var bytes, fits := Gather();
      if !fits {
        return TooLong;
      }
      if bytes != [] && bytes[|bytes| - 1] == CR {
        bytes := bytes[..|bytes| - 1];
      }
      outcome := if utf8(bytes) then Line(bytes) else BadText;
    }

    /** Reads until the end or the first failure. */
    method ReadAll(utf8: seq<Byte> -> bool) returns (lines: seq<seq<Byte>>, end: Outcome)
      requires Valid()
      modifies this
      ensures (lines, end) == Everything(old(Unread()), utf8)
    {
      ghost var s := Unread();
      lines := [];
      Unfolded(lines, s, utf8);
      assert [] + Everything(s, utf8).0 == Everything(s, utf8).0;
      end := NextRpcLine(utf8);
      while end.Line?
        invariant Valid()
        invariant Everything(s, utf8) == if end.Line? then Prefixed(lines + [end.text], Everything(Unread(), utf8))
                                         else (lines, end)
        decreases if end.Line? then 1 else 0, |Unread()|
      {
        lines := lines + [end.text];
        Unfolded(lines, Unread(), utf8);
        end := NextRpcLine(utf8);
      }
    }
  }

  lemma Regrouped(s: seq<Byte>, bytes: seq<Byte>, unread: seq<Byte>, k: nat)
    requires s == bytes + unread && k <= |unread|
    ensures bytes + unread[..k] == s[..|bytes| + k] && unread[k..] == s[|bytes| + k..]
    ensures s == (bytes + unread[..k]) + unread[k..]
    ensures k < |unread| ==> unread[k + 1..] == s[|bytes| + k + 1..]
  {
  }

  /** One more buffer: the line reaches to the buffer's first newline, or through all of it. */
  lemma Extended(s: seq<Byte>, bytes: seq<Byte>, unread: seq<Byte>, available: seq<Byte>)
    requires s == bytes + unread && LF !in bytes && available <= unread
    ensures var k := Content(available);
            && unread[..k] == available[..k] && LF !in bytes + unread[..k]
            && Content(s) >= |bytes| + k
            && (k < |available| ==> Content(s) == |bytes| + k < |s|)
  {
    var more := unread[|available|..];
    assert unread == available + more;
    ContentContinues(bytes, unread);
    if Content(available) < |available| {
      ContentEnds(available, more);
    } else {
      ContentContinues(available, more);
    }
  }

  lemma OneBuffer(s: seq<Byte>, bytes: seq<Byte>, unread: seq<Byte>, available: seq<Byte>)
    requires s == bytes + unread && LF !in bytes && available <= unread
    ensures var k := Content(available);
            var longer := bytes + available[..k];
            && Content(s) >= |longer| == |bytes| + k && LF !in longer && s == longer + unread[k..]
            && (k < |available| ==> Content(s) == |longer| && longer == s[..Content(s)] && unread[k + 1..] == Rest(s))
  {
    Extended(s, bytes, unread, available);
    Regrouped(s, bytes, unread, Content(available));
  }

  lemma LastLine(s: seq<Byte>, bytes: seq<Byte>)
    requires s == bytes + [] && LF !in bytes
    ensures Content(s) == |bytes| && bytes == s[..Content(s)] && Rest(s) == []
  {
    ContentContinues(bytes, []);
  }

  // ----- The whole stream -----

  function Prefixed(lines: seq<seq<Byte>>, more: (seq<seq<Byte>>, Outcome)): (seq<seq<Byte>>, Outcome) {
    (lines + more.0, more.1)
  }

  lemma Unfolded(lines: seq<seq<Byte>>, s: seq<Byte>, utf8: seq<Byte> -> bool)
    ensures var first := Next(s, utf8);
            Prefixed(lines, Everything(s, utf8)) ==
            if first.Line? then Prefixed(lines + [first.text], Everything(Rest(s), utf8)) else (lines, first)
  {
    var first := Next(s, utf8);
    if first.Line? {
      var (rest, end) := Everything(Rest(s), utf8);
      assert lines + ([first.text] + rest) == (lines + [first.text]) + rest;
    } else {
      assert lines + [] == lines;
    }
  }

  function Everything(s: seq<Byte>, utf8: seq<Byte> -> bool): (seq<seq<Byte>>, Outcome)
    decreases |s|
  {
    var first := Next(s, utf8);
    if !first.Line? then ([], first)
    else
      var (lines, end) := Everything(Rest(s), utf8);
      ([first.text] + lines, end)
  }

  /** The pieces with a newline after each. */
  function Terminated(raw: seq<seq<Byte>>): seq<Byte> {
    if raw == [] then [] else raw[0] + [LF] + Terminated(raw[1..])
  }

  /** The stream cut at its newlines: the last newline may be missing, after a piece that is not empty. */
  predicate Splits(raw: seq<seq<Byte>>, s: seq<Byte>) {
    && (forall i :: 0 <= i < |raw| ==> LF !in raw[i])
    && (s == Terminated(raw) || (raw != [] && raw[|raw| - 1] != [] && s + [LF] == Terminated(raw)))
  }

  lemma FirstPiece(raw: seq<seq<Byte>>, s: seq<Byte>)
    requires Splits(raw, s)
    ensures raw == [] <==> s == []
    ensures raw != [] ==> raw[0] == s[..Content(s)] && Splits(raw[1..], Rest(s))
  {
    if raw != [] {
      var n, rest := |raw[0]|, Terminated(raw[1..]);
      assert Terminated(raw) == raw[0] + ([LF] + rest);
      if s == Terminated(raw) {
        assert s[..n] == raw[0] && s[n] == LF && s[n + 1..] == rest;
        ContentIs(s, n);
      } else if rest == [] {
        assert s + [LF] == raw[0] + [LF];
        assert s == (s + [LF])[..|s|] == raw[0];
        NothingTerminated(raw[1..]);
        ContentIs(s, n);
      } else {
        assert (s + [LF])[..n] == raw[0] && (s + [LF])[n] == LF && (s + [LF])[n + 1..] == rest;
        assert s[..n] == raw[0] && s[n] == LF && s[n + 1..] + [LF] == rest;
        ContentIs(s, n);
        assert raw[1..] != [] && raw[1..][|raw| - 2] == raw[|raw| - 1];
      }
    }
  }

  lemma NothingTerminated(raw: seq<seq<Byte>>)
    requires Terminated(raw) == []
    ensures raw == []
  {
  }

  /** The pieces that `lines` stops in the middle of, and why. */
  predicate StopsAt(raw: seq<seq<Byte>>, read: (seq<seq<Byte>>, Outcome), utf8: seq<Byte> -> bool) {
    && |read.0| <= |raw| && !read.1.Line?
    && (forall i :: 0 <= i < |read.0| ==> Judged(raw[i], utf8) == Line(read.0[i]))
    && read.1 == (if |read.0| == |raw| then Ended else Judged(raw[|read.0|], utf8))
  }

  lemma StopsLater(raw: seq<seq<Byte>>, read: (seq<seq<Byte>>, Outcome), text: seq<Byte>, utf8: seq<Byte> -> bool)
    requires raw != [] && StopsAt(raw[1..], read, utf8) && Judged(raw[0], utf8) == Line(text)
    ensures StopsAt(raw, ([text] + read.0, read.1), utf8)
  {
    var lines := [text] + read.0;
    forall i | 0 <= i < |lines|
      ensures Judged(raw[i], utf8) == Line(lines[i])
    {
      assert i > 0 ==> raw[i] == raw[1..][i - 1] && lines[i] == read.0[i - 1];
    }
  }

  /** Reading everything gives the pieces of the stream, each without one trailing carriage return,
      up to the first that is too long or not text, which is what it reports. */
  lemma {:induction false} ReadsThePieces(raw: seq<seq<Byte>>, s: seq<Byte>, utf8: seq<Byte> -> bool)
    requires Splits(raw, s)
    ensures StopsAt(raw, Everything(s, utf8), utf8)
    decreases |s|
  {
    FirstPiece(raw, s);
    if raw != [] && Next(s, utf8).Line? {
      ReadsThePieces(raw[1..], Rest(s), utf8);
      StopsLater(raw, Everything(Rest(s), utf8), Next(s, utf8).text, utf8);
    }
  }

  lemma HeadAndTail(a: seq<seq<Byte>>, b: seq<seq<Byte>>)
    requires a != [] && b != [] && a[0] == b[0] && a[1..] == b[1..]
    ensures a == b
  {
    assert a == [a[0]] + a[1..] && b == [b[0]] + b[1..];
  }

  /** There is one way to cut a stream at its newlines. */
  lemma {:induction false} OneSplit(a: seq<seq<Byte>>, b: seq<seq<Byte>>, s: seq<Byte>)
    requires Splits(a, s) && Splits(b, s)
    ensures a == b
    decreases |s|
  {
    FirstPiece(a, s);
    FirstPiece(b, s);
    if s != [] {
      OneSplit(a[1..], b[1..], Rest(s));
      HeadAndTail(a, b);
    }
  }

  lemma {:induction false} SplitExists(s: seq<Byte>) returns (raw: seq<seq<Byte>>)
    ensures Splits(raw, s)
    decreases |s|
  {
    if s == [] {
      return [];
    }
    var n := Content(s);
    if n == |s| {
      raw := [s];
      assert s[..n] == s && Terminated(raw[1..]) == [];
      assert Terminated(raw) == s + [LF];
    } else {
      var more := SplitExists(Rest(s));
      raw := [s[..n]] + more;
      assert raw[1..] == more && s == s[..n] + [LF] + Rest(s);
      assert Terminated(raw) == s[..n] + [LF] + Terminated(more);
      if Rest(s) != Terminated(more) {
        assert s + [LF] == s[..n] + [LF] + (Rest(s) + [LF]);
      }
    }
  }

  lemma StrippedSuffix(consumed: seq<Byte>, t: seq<Byte>)
    ensures Stripped(consumed + t) == Stripped(t) <==> consumed == [] || (consumed == [CR] && t == [])
  {
    if t == [] {
      assert consumed + t == consumed;
    } else if consumed == [] {
      assert consumed + t == t;
    } else {
      assert |Stripped(consumed + t)| == |consumed| + |Stripped(t)|;
    }
  }

  /** A line part of which is consumed: the rest of it is the first line of what is left. */
  lemma LineContinues(consumed: seq<Byte>, s: seq<Byte>)
    requires LF !in consumed
    ensures Content(consumed + s) == |consumed| + Content(s) && Rest(consumed + s) == Rest(s)
    ensures (consumed + s)[..Content(consumed + s)] == consumed + s[..Content(s)]
  {
    ContentContinues(consumed, s);
    Regrouped(consumed + s, consumed, s, Content(s));
  }

  lemma Suffix(consumed: seq<Byte>, t: seq<Byte>)
    ensures (consumed + t)[|consumed|..] == t
  {
  }

  /** The worker may drop a call that has consumed part of a line; the next call then gives the rest
      of that line as if it were whole, or the end of the stream if nothing is left.  Where the whole
      was a line, that is the line itself if and only if nothing had been consumed, or only a carriage
      return right before the newline. */
  lemma DroppedCallTearsTheLine(consumed: seq<Byte>, s: seq<Byte>, utf8: seq<Byte> -> bool)
    requires LF !in consumed
    ensures Content(consumed + s) == |consumed| + Content(s) && Rest(consumed + s) == Rest(s)
    ensures Next(s, utf8) ==
            if s == [] then Ended else Judged((consumed + s)[..Content(consumed + s)][|consumed|..], utf8)
    ensures Next(consumed + s, utf8).Line? ==>
              (Next(s, utf8) == Next(consumed + s, utf8) <==>
                 consumed == [] || (consumed == [CR] && s != [] && s[0] == LF))
  {
    LineContinues(consumed, s);
    Suffix(consumed, s[..Content(s)]);
    StrippedSuffix(consumed, s[..Content(s)]);
    if consumed == [] {
      assert consumed + s == s;
    }
  }
}
