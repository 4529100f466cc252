/** Reading a file of lines by byte offset. */
module LineFile {
  import opened Text
  import opened JsonText
  import opened Frames

  /** std::getline from where the stream stands: up to a newline or the end. */
  function FirstLine(t: Text): Text {
    if t == [] || t[0] == NEWLINE then [] else [t[0]] + FirstLine(t[1..])
  }

  lemma {:induction false} FirstLineOf(line: Text, rest: Text)
    requires OneLine(line)
    ensures FirstLine(line + [NEWLINE] + rest) == line
  {
    var t := line + [NEWLINE] + rest;
    if line != [] {
      assert t[1..] == line[1..] + [NEWLINE] + rest;
      FirstLineOf(line[1..], rest);
    }
  }

  /** The byte offset at which frame `n` starts. */
  function Boundary(frames: seq<Json>, n: nat): nat
    requires n <= |frames|
  {
    |Lines(frames[..n])|
  }

  lemma {:induction false} LinesPrefix(frames: seq<Json>, n: nat)
    requires n <= |frames|
    ensures Lines(frames[..n]) <= Lines(frames)
    decreases |frames|
  {
    hide Dump;
    if n == |frames| {
      assert frames[..n] == frames;
    } else {
      var shorter := frames[..|frames| - 1];
      assert frames[..n] == shorter[..n];
      LinesPrefix(shorter, n);
    }
  }

  lemma NextBoundary(frames: seq<Json>, n: nat)
    requires n < |frames|
    ensures Boundary(frames, n + 1) == Boundary(frames, n) + |Dump(frames[n])| + 1
    ensures Lines(frames[..n + 1]) == Lines(frames[..n]) + Dump(frames[n]) + [NEWLINE]
  {
    hide Dump;
    assert frames[..n + 1] == frames[..n] + [frames[n]];
    LinesAppend(frames[..n], frames[n]);
  }

  /** From a frame boundary the next line is the next frame, whole, and the offset
      after it is the next boundary. */
  lemma LineAtBoundary(frames: seq<Json>, n: nat)
    requires n < |frames|
    ensures Boundary(frames, n) < |Lines(frames)|
    ensures FirstLine(Lines(frames)[Boundary(frames, n)..]) == Dump(frames[n])
    ensures Boundary(frames, n) + |Dump(frames[n])| + 1 == Boundary(frames, n + 1) <= |Lines(frames)|
  {
    hide Dump, Lines;
    NextBoundary(frames, n);
    LinesPrefix(frames, n + 1);
    var all, before, line := Lines(frames), Lines(frames[..n]), Dump(frames[n]);
    var rest := all[|Lines(frames[..n + 1])|..];
    assert all[|before|..] == line + [NEWLINE] + rest;
    DumpOneLine(frames[n]);
    FirstLineOf(line, rest);
  }

  /** Only the last boundary is the end of the file. */
  lemma BoundaryBelowEnd(frames: seq<Json>, n: nat)
    requires n <= |frames|
    ensures Boundary(frames, n) <= |Lines(frames)|
    ensures Boundary(frames, n) < |Lines(frames)| <==> n < |frames|
  {
    hide Dump, Lines;
    if n < |frames| {
      LineAtBoundary(frames, n);
    } else {
      assert frames[..n] == frames;
    }
  }
}
