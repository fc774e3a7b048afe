/** The writer that breaks an attachment into lines, section 6.8 of RFC 2045. */
module Lines {
  import opened Domain
  import Base64

  const WIDTH := 76
  const CRLF := "\r\n"

  // A break after each full line.
  function Wrap(s: string): string
    decreases |s|
  {
    if |s| < WIDTH then s else s[..WIDTH] + CRLF + Wrap(s[WIDTH..])
  }

  function Unwrap(t: string): string
    decreases |t|
  {
    if |t| < WIDTH + 2 then t else t[..WIDTH] + Unwrap(t[WIDTH + 2..])
  }

  lemma {:induction false} UnwrapWrap(s: string)
    ensures Unwrap(Wrap(s)) == s
    decreases |s|
  {
    if |s| >= WIDTH {
      UnwrapWrap(s[WIDTH..]);
      var t := Wrap(s);
      assert t[..WIDTH] == s[..WIDTH] && t[WIDTH + 2..] == Wrap(s[WIDTH..]);
    }
  }

  // A first part of whole lines is wrapped on its own.
  lemma {:induction false} WrapJoin(a: string, b: string)
    requires |a| % WIDTH == 0
    ensures Wrap(a + b) == Wrap(a) + Wrap(b)
    decreases |a|
  {
    if a == "" {
      assert a + b == b;
    } else {
      assert (a + b)[..WIDTH] == a[..WIDTH] && (a + b)[WIDTH..] == a[WIDTH..] + b;
      WrapJoin(a[WIDTH..], b);
    }
  }

  lemma OneMoreLine(part: string, more: string)
    requires |part| + |more| <= WIDTH && more != ""
    ensures Wrap(part + more) == part + more + (if |part| + |more| == WIDTH then CRLF else "")
  {
    if |part| + |more| == WIDTH {
      assert (part + more)[..WIDTH] == part + more;
      assert Wrap(part + more) == part + more + CRLF + Wrap("");
    }
  }

  // Bytes that stay within the line under way follow as they are; a byte that
  // fills it is followed by a break.
  lemma WrapMore(s: string, more: string)
    requires |s| % WIDTH + |more| <= WIDTH && more != ""
    ensures Wrap(s + more) == Wrap(s) + more + (if |s| % WIDTH + |more| == WIDTH then CRLF else "")
  {
    var k := |s| - |s| % WIDTH;
    var whole, part := s[..k], s[k..];
    WrapJoin(whole, part);
    WrapJoin(whole, part + more);
    OneMoreLine(part, more);
    assert s == whole + part && s + more == whole + (part + more);
    assert Wrap(whole) + (part + more) == Wrap(whole) + part + more;
  }

  predicate Unbroken(s: string) {
    forall i | 0 <= i < |s| :: s[i] != '\r' && s[i] != '\n'
  }

  lemma {:induction false} NoBreaksJoin(a: string, b: string)
    ensures Base64.NoBreaks(a + b) == Base64.NoBreaks(a) + Base64.NoBreaks(b)
    decreases |a|
  {
    if a == "" {
      assert a + b == b;
    } else {
      assert (a + b)[1..] == a[1..] + b;
      NoBreaksJoin(a[1..], b);
    }
  }

  lemma {:induction false} UnbrokenStays(s: string)
    requires Unbroken(s)
    ensures Base64.NoBreaks(s) == s
    decreases |s|
  {
    if s != "" { UnbrokenStays(s[1..]); }
  }

  // A reader that skips line breaks sees the unbroken input.
  lemma {:induction false} BreaksCancel(s: string)
    requires Unbroken(s)
    ensures Base64.NoBreaks(Wrap(s)) == s
    decreases |s|
  {
    if |s| < WIDTH {
      UnbrokenStays(s);
    } else {
      var head, tail := s[..WIDTH], Wrap(s[WIDTH..]);
      NoBreaksJoin(head + CRLF, tail);
      NoBreaksJoin(head, CRLF);
      UnbrokenStays(head);
      assert Base64.NoBreaks(CRLF) == "" by { assert CRLF[1..] == "\n" && "\n"[1..] == ""; }
      BreaksCancel(s[WIDTH..]);
    }
  }

  // An attachment is read back from its encoded and wrapped lines.
  lemma AttachmentReadBack(data: string)
    requires Base64.IsBytes(data)
    ensures var text := Wrap(Base64.EncodePadded(Base64.STANDARD, data));
            Base64.DecodePadded(Base64.STANDARD, Base64.NoBreaks(text), true) == Some(data)
  {
    Base64.DigitsBack(Base64.STANDARD, data, true);
    BreaksCancel(Base64.EncodePadded(Base64.STANDARD, data));
    Base64.PaddedBack(Base64.STANDARD, data);
  }

  function LinesOf(t: string): (lines: seq<string>)
    ensures lines != []
    decreases |t|
  {
    if t == "" then [""]
    else if CRLF <= t then [""] + LinesOf(t[2..])
    else
      var rest := LinesOf(t[1..]);
      [[t[0]] + rest[0]] + rest[1..]
  }

  predicate Fit(lines: seq<string>) {
    forall i | 0 <= i < |lines| :: |lines[i]| <= WIDTH
  }

  // A break within the limit ends the first line, whatever stands before it.
  lemma {:induction false} FitBefore(a: string, rest: string)
    requires |a| <= WIDTH && Fit(LinesOf(rest))
    ensures |LinesOf(a + CRLF + rest)[0]| <= |a| && Fit(LinesOf(a + CRLF + rest))
    decreases |a|
  {
    var t := a + CRLF + rest;
    if a == "" {
      assert t == CRLF + rest && t[2..] == rest;
    } else if CRLF <= t {
      assert t[1] == '\n' && |a| >= 2 && t[2..] == a[2..] + CRLF + rest;
      FitBefore(a[2..], rest);
    } else {
      assert t[1..] == a[1..] + CRLF + rest;
      FitBefore(a[1..], rest);
    }
  }

  lemma {:induction false} ShortLines(s: string)
    requires |s| <= WIDTH
    ensures |LinesOf(s)[0]| <= |s| && Fit(LinesOf(s))
    decreases |s|
  {
    if CRLF <= s {
      ShortLines(s[2..]);
    } else if s != "" {
      ShortLines(s[1..]);
    }
  }

  // No line of the wrapped text is longer than 76 characters, also where the
  // input has breaks of its own.
  lemma {:induction false} LinesFit(s: string)
    ensures Fit(LinesOf(Wrap(s))) && forall line <- LinesOf(Wrap(s)) :: |line| <= 76
    decreases |s|
  {
    if |s| < WIDTH {
      ShortLines(s);
    } else {
      LinesFit(s[WIDTH..]);
      FitBefore(s[..WIDTH], Wrap(s[WIDTH..]));
    }
  }

  // Without such breaks every line but the last has exactly that length.
  lemma {:induction false} LinesFull(s: string)
    requires Unbroken(s)
    ensures var lines := LinesOf(Wrap(s));
            |lines| == |s| / 76 + 1 && forall i | 0 <= i < |lines| :: |lines[i]| == if i < |lines| - 1 then 76 else |s| % 76
    decreases |s|
  {
    if |s| < WIDTH {
      OneLine(s);
    } else {
      LineBefore(s[..WIDTH], Wrap(s[WIDTH..]));
      LinesFull(s[WIDTH..]);
    }
  }

  lemma {:induction false} OneLine(line: string)
    requires Unbroken(line)
    ensures LinesOf(line) == [line]
    decreases |line|
  {
    if line != "" {
      OneLine(line[1..]);
      assert [line[0]] + line[1..] == line;
    }
  }

  lemma {:induction false} LineBefore(line: string, rest: string)
    requires Unbroken(line)
    ensures LinesOf(line + CRLF + rest) == [line] + LinesOf(rest)
    decreases |line|
  {
    var t := line + CRLF + rest;
    if line == "" {
      assert t == CRLF + rest && t[2..] == rest;
    } else {
      assert t[0] == line[0] && t[1..] == line[1..] + CRLF + rest;
      LineBefore(line[1..], rest);
      assert [line[0]] + line[1..] == line;
    }
  }

  // ---------------------------------------------------------- the writer

  // The writer below: at its k-th call it takes all it is given or stops short,
  // and may report an error; whatever stops short reports one.
  class Sink {
    const short: nat -> Option<nat>
    const fails: nat -> bool
    var output: string
    var calls: nat

    ghost predicate Honest() {
      forall k: nat :: short(k).Some? ==> fails(k)
    }

    constructor (short: nat -> Option<nat>, fails: nat -> bool)
      ensures this.short == short && this.fails == fails && output == "" && calls == 0
    {
      this.short, this.fails, output, calls := short, fails, "", 0;
    }

    method Write(p: string) returns (n: nat, failed: bool)
      modifies this
      ensures n <= |p| && output == old(output) + p[..n]
      ensures failed == fails(old(calls)) && calls == old(calls) + 1
      ensures short(old(calls)).None? ==> n == |p|
    {
      n := |p|;
      if short(calls).Some? && short(calls).value < n {
        n := short(calls).value;
      }
      failed := fails(calls);
      output := output + p[..n];
      calls := calls + 1;
    }
  }

  class LineWriter {
    const sink: Sink
    var column: nat
    ghost var taken: string

    // Nothing has failed so far.
    ghost predicate Clean()
      reads this, sink
    {
      sink.output == Wrap(taken) && column == |taken| % WIDTH
    }

    constructor (sink: Sink)
      requires sink.output == ""
      ensures this.sink == sink && Clean() && taken == ""
    {
      this.sink, column, taken := sink, 0, "";
    }

    // A piece that stays within the line under way, and the break after it if
    // it fills the line.
    method WritePiece(p: string) returns (written: nat, failed: bool)
      requires Clean() && sink.Honest() && p != "" && column + |p| <= WIDTH
      modifies this, sink
      ensures written <= |p| && taken == old(taken) + p[..written]
      ensures !failed ==> written == |p| && Clean()
      ensures failed ==> sink.output <= Wrap(old(taken) + p)
      ensures (forall k: nat :: !sink.fails(k)) ==> !failed
    {
      WrapMore(taken, p);
      ghost var before := sink.output;
      written, failed := sink.Write(p);
      column := column + written;
      taken := taken + p[..written];
      if failed || written != |p| {
        assert before + p[..written] <= before + p;
        return written, true;
      }
      assert p[..written] == p;
      if column == WIDTH {
        var count, broken := sink.Write(CRLF);
        if broken { return written, true; }
        column := 0;
      }
    }

    // Without an error everything given is written, wrapped; after one, what is
    // written is the beginning of that.
    method Write(p: string) returns (total: nat, failed: bool)
      requires Clean() && sink.Honest()
      modifies this, sink
      ensures total <= |p| && taken == old(taken) + p[..total]
      ensures !failed ==> total == |p| && Clean()
      ensures failed ==> sink.output <= Wrap(old(taken) + p)
      ensures (forall k: nat :: !sink.fails(k)) ==> !failed
    {
      total, failed := 0, false;
      assert p[..0] == "";
      while total < |p|
        invariant Clean() && total <= |p| && taken == old(taken) + p[..total]
      {
        var n := if |p| - total < WIDTH - column then |p| - total else WIDTH - column;
        var piece := p[total..total + n];
        var written, broken := WritePiece(piece);
        PrefixJoin(old(taken), p, total, n, written);
        if broken {
          PieceGrows(old(taken), p, total, n);
          return total + written, true;
        }
        total := total + written;
      }
      assert p[..total] == p;
    }

    // Any splitting of the same bytes gives the same text.
    method WriteAll(chunks: seq<string>)
      requires Clean() && taken == "" && sink.Honest() && forall k: nat :: !sink.fails(k)
      modifies this, sink
      ensures sink.output == Wrap(Flat(chunks))
    {
      for i := 0 to |chunks|
        invariant Clean() && taken == Flat(chunks[..i])
      {
        assert chunks[..i + 1][..i] == chunks[..i];
        var n, failed := Write(chunks[i]);
      }
      assert chunks[..|chunks|] == chunks;
    }
  }

  function Flat(chunks: seq<string>): string
    decreases |chunks|
  {
    if chunks == [] then "" else Flat(chunks[..|chunks| - 1]) + chunks[|chunks| - 1]
  }

  lemma PrefixJoin(s: string, p: string, i: nat, n: nat, written: nat)
    requires i + n <= |p| && written <= n
    ensures s + p[..i] + p[i..i + n][..written] == s + p[..i + written]
  {
    assert p[..i] + p[i..i + n][..written] == p[..i + written];
  }

  lemma PieceGrows(s: string, p: string, i: nat, n: nat)
    requires i + n <= |p|
    ensures Wrap(s + p[..i] + p[i..i + n]) <= Wrap(s + p)
  {
    assert s + p[..i] + p[i..i + n] + p[i + n..] == s + p;
    WrapGrows(s + p[..i] + p[i..i + n], p[i + n..]);
  }

  lemma WrapGrows(s: string, more: string)
    ensures Wrap(s) <= Wrap(s + more)
    decreases |more|
  {
    if more == "" {
      assert s + more == s;
    } else {
      WrapMore(s, more[..1]);
      WrapGrows(s + more[..1], more[1..]);
      assert s + more == s + more[..1] + more[1..];
    }
  }
}
