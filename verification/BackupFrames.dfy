/** Framing of the tool's output: a line ends at a newline, at a bare carriage return, or at the pair, and
    however the bytes are cut into reads the same frames come out. */
module BackupFrames {
  import opened Wrappers

  // ---- the reference: one character at a time ----

  /** The frames still to come, given the frame in progress and whether the last character ended one with a
      carriage return.  What is left at the end is a frame if there is any of it. */
  function Frames(s: string, current: string, afterCR: bool): seq<string>
    decreases |s|
  {
    if s == "" then if current == "" then [] else [current]
    else if s[0] == '\n' && afterCR then Frames(s[1..], current, false)
    else if s[0] == '\n' || s[0] == '\r' then [current] + Frames(s[1..], "", s[0] == '\r')
    else Frames(s[1..], current + [s[0]], false)
  }

  function Split(s: string): seq<string> { Frames(s, "", false) }

  // ---- scanFrames ----

  predicate IsEnd(c: char) { c == '\n' || c == '\r' }

  /** The first line end. */
  function IndexEnd(s: string): (i: nat)
    ensures i <= |s|
    ensures i < |s| ==> IsEnd(s[i])
    ensures forall j | 0 <= j < i :: !IsEnd(s[j])
  {
    if s == "" || IsEnd(s[0]) then 0 else 1 + IndexEnd(s[1..])
  }

  /** One call of the split function: how much input it takes, and the frame, if there is one yet. */
  function ScanFrames(data: string, atEOF: bool): (r: (nat, Option<string>))
    ensures r.0 <= |data|
    ensures r.1.Some? ==> r.0 > 0
  {
    var i := IndexEnd(data);
    if i == |data| then
      if atEOF && data != "" then (|data|, Some(data)) else (0, None)
    else if data[i] == '\r' then
      if i == |data| - 1 && !atEOF then (0, None)
      else if i + 1 < |data| && data[i + 1] == '\n' then (i + 2, Some(data[..i]))
      else (i + 1, Some(data[..i]))
    else (i + 1, Some(data[..i]))
  }

  // ---- one call against the reference ----

  lemma {:induction false} RunToEnd(s: string, current: string, i: nat)
    requires i <= |s| && forall j | 0 <= j < i :: !IsEnd(s[j])
    ensures i == 0 || Frames(s, current, false) == Frames(s[i..], current + s[..i], false)
  {
    if i > 0 {
      RunToEnd(s[1..], current + [s[0]], i - 1);
      if i == 1 {
        assert s[..1] == [s[0]];
      } else {
        assert s[1..][i - 1..] == s[i..] && (current + [s[0]]) + s[1..][..i - 1] == current + s[..i];
      }
    }
  }

  lemma {:induction false} AfterReturn(s: string)
    ensures Frames(s, "", true) == if s != "" && s[0] == '\n' then Frames(s[1..], "", false) else Frames(s, "", false)
  {
  }

  /** The reference, one frame at a time. */
  lemma {:induction false} FirstFrame(s: string)
    ensures var i := IndexEnd(s);
      Split(s) == if i == |s| then (if s == "" then [] else [s])
                  else if s[i] == '\r' && i + 1 < |s| && s[i + 1] == '\n' then [s[..i]] + Split(s[i + 2..])
                  else [s[..i]] + Split(s[i + 1..])
  {
    var i := IndexEnd(s);
    RunToEnd(s, "", i);
    assert s[..0] == "" && "" + s[..i] == s[..i];
    if i == |s| {
      assert s[i..] == "" && s[..i] == s;
    } else {
      assert s[i..][0] == s[i] && s[i..][1..] == s[i + 1..];
      AfterReturn(s[i + 1..]);
      if s[i] == '\r' && i + 1 < |s| && s[i + 1] == '\n' {
        assert s[i + 1..][1..] == s[i + 2..];
      }
    }
  }

  lemma {:induction false} IndexEndUnique(s: string, i: nat)
    requires i < |s| && IsEnd(s[i]) && forall j | 0 <= j < i :: !IsEnd(s[j])
    ensures IndexEnd(s) == i
  {
  }

  /** A frame scanned from a prefix is the first frame of the whole, wherever the prefix was cut. */
  lemma {:induction false} FrameOfPrefix(data: string, rest: string)
    requires ScanFrames(data, false).1.Some?
    ensures var (advance, token) := ScanFrames(data, false);
      Split(data + rest) == [token.value] + Split(data[advance..] + rest)
  {
    var i := IndexEnd(data);
    var whole := data + rest;
    IndexEndUnique(whole, i);
    FirstFrame(whole);
    assert whole[..i] == data[..i] && whole[i] == data[i];
    assert whole[i + 1..] == data[i + 1..] + rest;
    if i + 1 < |data| {
      assert whole[i + 1] == data[i + 1];
      assert i + 2 <= |data| ==> whole[i + 2..] == data[i + 2..] + rest;
    }
  }

  lemma {:induction false} LastFrames(data: string)
    ensures var (advance, token) := ScanFrames(data, true);
      Split(data) == if token.Some? then [token.value] + Split(data[advance..]) else []
  {
    FirstFrame(data);
  }

  // ---- the scanner loop ----

  function Joined(chunks: seq<string>): string {
    if chunks == [] then "" else chunks[0] + Joined(chunks[1..])
  }

  /** The scanner over a stream that arrives in these reads and then ends: it hands out frames while the
      split function finds them, reads when it does not, and drains what is left at the end. */
  method Scan(chunks: seq<string>) returns (frames: seq<string>)
    ensures frames == Split(Joined(chunks))
  {
    frames := [];
    var buffer := "";
    var next := 0;
    var eof := false;
    assert buffer + Joined(chunks) == Joined(chunks) && chunks[0..] == chunks;
    while true
      invariant next <= |chunks| && (eof ==> next == |chunks|)
      invariant frames + Split(buffer + Joined(chunks[next..])) == Split(Joined(chunks))
      decreases |chunks| - next, if eof then 0 else 1, |buffer|
    {
      if buffer != "" || eof {
        var (advance, token) := ScanFrames(buffer, eof);
        if token.Some? {
          if eof {
            LastFrames(buffer);
            assert buffer + Joined(chunks[next..]) == buffer;
            assert buffer[advance..] + Joined(chunks[next..]) == buffer[advance..];
          } else {
            FrameOfPrefix(buffer, Joined(chunks[next..]));
          }
          frames := frames + [token.value];
          buffer := buffer[advance..];
          continue;
        }
      }
      if eof {
        LastFrames(buffer);
        assert buffer + Joined(chunks[next..]) == buffer;
        return;
      }
      if next < |chunks| {
        assert (buffer + chunks[next]) + Joined(chunks[next + 1..]) == buffer + Joined(chunks[next..]);
        buffer := buffer + chunks[next];
        next := next + 1;
      } else {
        eof := true;
      }
    }
  }

  // ---- what a frame is ----

  /** The bytes with the line ends the scanner recognised put back as single newlines. */
  function Rejoined(frames: seq<string>): string {
    if frames == [] then "" else frames[0] + "\n" + Rejoined(frames[1..])
  }

  /** No frame holds a line end. */
  lemma {:induction false} FramesAreClean(s: string, current: string, afterCR: bool)
    requires forall j | 0 <= j < |current| :: !IsEnd(current[j])
    ensures forall f | f in Frames(s, current, afterCR) :: forall j | 0 <= j < |f| :: !IsEnd(f[j])
    decreases |s|
  {
    if s != "" {
      if s[0] == '\n' && afterCR {
        FramesAreClean(s[1..], current, false);
      } else if IsEnd(s[0]) {
        FramesAreClean(s[1..], "", s[0] == '\r');
      } else {
        FramesAreClean(s[1..], current + [s[0]], false);
      }
    }
  }

  lemma {:induction false} RejoinedSplits(frames: seq<string>)
    requires forall f | f in frames :: forall j | 0 <= j < |f| :: !IsEnd(f[j])
    ensures Split(Rejoined(frames)) == frames
  {
    if frames != [] {
      RejoinedSplits(frames[1..]);
      var s := Rejoined(frames);
      var i := |frames[0]|;
      assert frames[0] in frames;
      assert s == frames[0] + ("\n" + Rejoined(frames[1..]));
      assert s[i] == '\n';
      assert forall j | 0 <= j < i :: s[j] == frames[0][j];
      IndexEndUnique(s, i);
      FirstFrame(s);
      assert s[..i] == frames[0] && s[i + 1..] == Rejoined(frames[1..]);
    }
  }

  /** Splitting what a stream's frames rejoin to gives those frames back: framing loses only which line end was
      used. */
  lemma {:induction false} OnlyTheLineEndsAreLost(s: string)
    ensures Split(Rejoined(Split(s))) == Split(s)
  {
    FramesAreClean(s, "", false);
    RejoinedSplits(Split(s));
  }

  // ---- and what it keeps ----

  /** The stream without its line ends. */
  function Text(s: string): string {
    if s == "" then "" else (if s[0] == '\n' || s[0] == '\r' then "" else [s[0]]) + Text(s[1..])
  }

  function Content(frames: seq<string>): string { if frames == [] then "" else frames[0] + Content(frames[1..]) }

  lemma ContentNext(first: string, rest: seq<string>)
    ensures Content([first] + rest) == first + Content(rest)
  {
    assert ([first] + rest)[1..] == rest;
  }

  lemma {:induction false} FramesKeepText(s: string, current: string, afterCR: bool)
    ensures Content(Frames(s, current, afterCR)) == current + Text(s)
    decreases |s|
  {
    hide Content;
    ContentNothing();
    if s == "" {
      ContentNext(current, []);
      assert [current] + [] == [current];
    } else if s[0] == '\n' && afterCR {
      FramesKeepText(s[1..], current, false);
    } else if s[0] == '\n' || s[0] == '\r' {
      FramesKeepText(s[1..], "", s[0] == '\r');
      ContentNext(current, Frames(s[1..], "", s[0] == '\r'));
    } else {
      FramesKeepText(s[1..], current + [s[0]], false);
      assert (current + [s[0]]) + Text(s[1..]) == current + ([s[0]] + Text(s[1..]));
    }
  }

  lemma ContentNothing()
    ensures Content([]) == ""
  {
  }

  /** The frames of a stream hold all of it but its newlines and carriage returns, in order, and none of those. */
  lemma {:induction false} FramesHoldTheText(s: string)
    ensures Content(Split(s)) == Text(s)
    ensures forall f | f in Split(s) :: '\n' !in f && '\r' !in f
  {
    FramesKeepText(s, "", false);
    FramesAreClean(s, "", false);
    forall f | f in Split(s) ensures '\n' !in f && '\r' !in f {
      assert forall j | 0 <= j < |f| :: !IsEnd(f[j]);
    }
  }
}
