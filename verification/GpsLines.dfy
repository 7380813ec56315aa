/** The line assembler of the GPS thread (gps.c). */
module GpsLines {

  const BUFFER: int := 128

  predicate EndsLine(c: char) { c == '\n' || c == '\r' }

  // ----- What the assembler is for: drop NULs, split at line ends, keep the tail of each piece

  function WithoutNul(s: string): string
    decreases |s|
  {
    if s == "" then ""
    else WithoutNul(s[..|s| - 1]) + (if s[|s| - 1] == '\0' then "" else [s[|s| - 1]])
  }

  /** The text after the last line end. */
  function Unfinished(s: string): string
    decreases |s|
  {
    if s == "" || EndsLine(s[|s| - 1]) then "" else Unfinished(s[..|s| - 1]) + [s[|s| - 1]]
  }

  /** The pieces of text before each line end. */
  function Pieces(s: string): seq<string>
    decreases |s|
  {
    if s == "" then []
    else Pieces(s[..|s| - 1]) + (if EndsLine(s[|s| - 1]) then [Unfinished(s[..|s| - 1])] else [])
  }

  /** Each time the buffer overflows everything so far is forgotten. */
  function Kept(piece: string): string { piece[|piece| - |piece| % BUFFER..] }

  function KeptAll(pieces: seq<string>): seq<string> {
    seq(|pieces|, i requires 0 <= i < |pieces| => Kept(pieces[i]))
  }

  function Delivered(stream: string): seq<string> { KeptAll(Pieces(WithoutNul(stream))) }

  /** What is kept of the line not yet finished. */
  function Pending(stream: string): string { Kept(Unfinished(WithoutNul(stream))) }

  lemma KeptGrows(piece: string, c: char)
    ensures Kept(piece + [c]) == (if |Kept(piece)| < BUFFER - 1 then Kept(piece) + [c] else "")
  {
    assert |Kept(piece)| == |piece| % BUFFER;
    assert (|piece| + 1) % BUFFER == (if |piece| % BUFFER < BUFFER - 1 then |piece| % BUFFER + 1 else 0);
  }

  lemma KeptAllSnoc(pieces: seq<string>, piece: string)
    ensures KeptAll(pieces + [piece]) == KeptAll(pieces) + [Kept(piece)]
  {}

  /** How the text grows by a character, in terms of its pieces. */
  lemma TextGrows(text: string, c: char)
    ensures EndsLine(c) ==> Pieces(text + [c]) == Pieces(text) + [Unfinished(text)] && Unfinished(text + [c]) == ""
    ensures !EndsLine(c) ==> Pieces(text + [c]) == Pieces(text) && Unfinished(text + [c]) == Unfinished(text) + [c]
  {
    assert (text + [c])[..|text|] == text;
  }

  lemma WithoutNulGrows(s: string, c: char)
    ensures WithoutNul(s + [c]) == (if c == '\0' then WithoutNul(s) else WithoutNul(s) + [c])
  {
    assert (s + [c])[..|s|] == s;
  }

  // ----- The thread

  datatype Assembler = Assembler(lines: seq<string>, buf: string)

  /** One turn of the thread's loop, on values. */
  function Feed(a: Assembler, c: char): Assembler {
    if c == '\0' then a
    else if EndsLine(c) then Assembler(a.lines + [a.buf], "")
    else if |a.buf| < BUFFER - 1 then a.(buf := a.buf + [c])
    else a.(buf := "")
  }

  function FeedAll(s: string): Assembler
    decreases |s|
  {
    if s == "" then Assembler([], "") else Feed(FeedAll(s[..|s| - 1]), s[|s| - 1])
  }

  /** The loop delivers exactly the kept tails of the pieces of the text, for every stream. */
  lemma {:induction false} FeedAllDelivers(s: string)
    ensures FeedAll(s) == Assembler(Delivered(s), Pending(s))
    decreases |s|
  {
    if s == "" {
    } else {
      var front, c := s[..|s| - 1], s[|s| - 1];
      assert s == front + [c];
      FeedAllDelivers(front);
      FeedDelivers(front, c);
    }
  }

  lemma FeedDelivers(s: string, c: char)
    ensures Feed(Assembler(Delivered(s), Pending(s)), c) == Assembler(Delivered(s + [c]), Pending(s + [c]))
  {
    var text := WithoutNul(s);
    WithoutNulGrows(s, c);
    if c != '\0' {
      TextGrows(text, c);
      if EndsLine(c) {
        KeptAllSnoc(Pieces(text), Unfinished(text));
      } else {
        KeptGrows(Unfinished(text), c);
      }
    }
  }

  predicate PlainText(s: string) { forall i | 0 <= i < |s| :: s[i] != '\0' && s[i] != '\r' && s[i] != '\n' }

  /** A text without NULs, by its finished pieces and the rest. */
  predicate Consists(text: string, pieces: seq<string>, rest: string) {
    WithoutNul(text) == text && Pieces(text) == pieces && Unfinished(text) == rest
  }

  lemma {:induction false} PlainIsUnfinished(s: string)
    requires PlainText(s)
    ensures Consists(s, [], s)
    decreases |s|
  {
    if s == "" {
    } else {
      var front := s[..|s| - 1];
      PlainIsUnfinished(front);
      PlainCharacter(front, s[|s| - 1], [], front);
      assert s == front + [s[|s| - 1]];
    }
  }

  lemma PlainCharacter(text: string, c: char, pieces: seq<string>, rest: string)
    requires Consists(text, pieces, rest) && c != '\0' && c != '\r' && c != '\n'
    ensures Consists(text + [c], pieces, rest + [c])
  {
    WithoutNulGrows(text, c);
    TextGrows(text, c);
  }

  lemma LineEnd(text: string, c: char, pieces: seq<string>, rest: string)
    requires Consists(text, pieces, rest) && (c == '\r' || c == '\n')
    ensures Consists(text + [c], pieces + [rest], "")
  {
    WithoutNulGrows(text, c);
    TextGrows(text, c);
  }

  /** A line ended by CR and LF is delivered, cut to its last |line| mod 128 characters, and then an empty one. */
  lemma CrLfLineDelivered(line: string)
    requires PlainText(line)
    ensures Delivered(line + ['\r', '\n']) == [line[|line| - |line| % 128..], ""]
  {
    PlainIsUnfinished(line);
    LineEnd(line, '\r', [], line);
    assert [] + [line] == [line];
    LineEnd(line + ['\r'], '\n', [line], "");
    DeliveredOf(line + ['\r'] + ['\n'], line);
    assert line + ['\r', '\n'] == line + ['\r'] + ['\n'];
  }

  lemma DeliveredOf(text: string, line: string)
    requires Consists(text, [line] + [""], "")
    ensures Delivered(text) == [line[|line| - |line| % 128..], ""]
  {
    assert Pieces(text) == [line, ""];
    assert KeptAll([line, ""]) == [Kept(line), Kept("")];
  }

  /** The thread's loop over a stream of received characters, with its buffer and index. */
  method Assemble(stream: string) returns (lines: seq<string>)
    ensures lines == Delivered(stream)
  {
    var buf := new char[128];
    var idx: nat := 0;
    lines := [];
    for k := 0 to |stream|
      invariant idx <= 127
      invariant FeedAll(stream[..k]) == Assembler(lines, buf[..idx])
    {
      var c := stream[k];
      assert stream[..k + 1][..k] == stream[..k];
      if c == '\0' {
        continue;
      }
      if EndsLine(c) {
        buf[idx] := '\0';
        lines := lines + [buf[..idx]];
        idx := 0;
      } else {
        if idx < buf.Length - 1 {
          buf[idx] := c;
          idx := idx + 1;
        } else {
          idx := 0;
        }
      }
    }
    assert stream[..|stream|] == stream;
    FeedAllDelivers(stream);
  }
}
