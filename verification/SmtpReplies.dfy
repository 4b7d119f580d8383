/**
 The incremental reader of SMTP replies: bytes arrive in arbitrary chunks, waiting reads take
 whole, possibly multi-line, replies.
 */
module SmtpReplies {
  import opened Common

  /** `waiters` holds the lines each waiting read has so far, `resolved` the lines of finished ones. */
  datatype State = State(buffer: string, waiters: seq<seq<string>>, resolved: seq<seq<string>>)

  /** The position of the first line feed, or the length if there is none. */
  function FirstLf(s: string): (k: nat)
    ensures k <= |s| && (k < |s| ==> s[k] == '\n') && forall i :: 0 <= i < k ==> s[i] != '\n'
  {
    if s == "" then 0 else if s[0] == '\n' then 0 else 1 + FirstLf(s[1..])
  }

  /** A line without the carriage return of its line end. */
  function Chomp(line: string): string {
    if line != "" && line[|line| - 1] == '\r' then line[..|line| - 1] else line
  }

  /** Splitting at every line feed, each with the carriage return before it if there is one. */
  function Split(s: string): (r: seq<string>)
    ensures |r| >= 1
    decreases |s|
  {
    var k := FirstLf(s);
    if k == |s| then [s] else [Chomp(s[..k])] + Split(s[k + 1..])
  }

  predicate IsDigit(c: char) {
    '0' <= c <= '9'
  }

  /** The last line of a reply: three digits and a space. */
  predicate IsLast(line: string) {
    |line| >= 4 && IsDigit(line[0]) && IsDigit(line[1]) && IsDigit(line[2]) && line[3] == ' '
  }

  /** One line: empty lines and lines nobody waits for are dropped. */
  function Take(st: State, line: string): State {
    if line == "" || st.waiters == [] then st
    else
      var lines := st.waiters[0] + [line];
      if IsLast(line) then st.(waiters := st.waiters[1..], resolved := st.resolved + [lines])
      else st.(waiters := [lines] + st.waiters[1..])
  }

  function TakeAll(st: State, lines: seq<string>): State
    decreases |lines|
  {
    if lines == [] then st else TakeAll(Take(st, lines[0]), lines[1..])
  }

  function Flush(st: State): State {
    var lines := Split(st.buffer);
    if st.buffer != "" && st.buffer[|st.buffer| - 1] == '\n' then TakeAll(st.(buffer := ""), lines)
    else TakeAll(st.(buffer := lines[|lines| - 1]), lines[..|lines| - 1])
  }

  function OnData(st: State, chunk: string): State {
    Flush(st.(buffer := st.buffer + chunk))
  }

  function Read(st: State): State {
    Flush(st.(waiters := st.waiters + [[]]))
  }

  function Feed(st: State, chunks: seq<string>): State
    decreases |chunks|
  {
    if chunks == [] then st else Feed(OnData(st, chunks[0]), chunks[1..])
  }

  function Concat(chunks: seq<string>): string {
    if chunks == [] then "" else chunks[0] + Concat(chunks[1..])
  }

  // ---------------------------------------------------------------- the whole-stream reading

  /** The complete lines of a text and what follows the last line feed. */
  function Complete(s: string): seq<string>
    decreases |s|
  {
    var k := FirstLf(s);
    if k == |s| then [] else [Chomp(s[..k])] + Complete(s[k + 1..])
  }

  function Rest(s: string): string
    decreases |s|
  {
    var k := FirstLf(s);
    if k == |s| then s else Rest(s[k + 1..])
  }

  function NonEmpty(lines: seq<string>): seq<string> {
    if lines == [] then [] else (if lines[0] == "" then [] else [lines[0]]) + NonEmpty(lines[1..])
  }

  /** The replies in a list of lines: each ends with its first last line. */
  function Replies(lines: seq<string>, open: seq<string>): seq<seq<string>>
    decreases |lines|
  {
    if lines == [] then []
    else if IsLast(lines[0]) then [open + [lines[0]]] + Replies(lines[1..], [])
    else Replies(lines[1..], open + [lines[0]])
  }

  lemma {:induction false} SplitIs(s: string)
    ensures Split(s) == Complete(s) + [Rest(s)]
    ensures forall i :: 0 <= i < |Rest(s)| ==> Rest(s)[i] != '\n'
    ensures s != "" && s[|s| - 1] == '\n' <==> s != "" && Rest(s) == ""
    decreases |s|
  {
    var k := FirstLf(s);
    if k < |s| {
      SplitIs(s[k + 1..]);
      if s[k + 1..] == "" { assert FirstLf("") == 0; }
    }
  }

  lemma {:induction false} TakeAllConcat(st: State, a: seq<string>, b: seq<string>)
    ensures TakeAll(st, a + b) == TakeAll(TakeAll(st, a), b)
    decreases |a|
  {
    if a == [] {
      assert a + b == b;
    } else {
      assert (a + b)[1..] == a[1..] + b;
      TakeAllConcat(Take(st, a[0]), a[1..], b);
    }
  }

  lemma {:induction false} TakeAllKeepsBuffer(st: State, lines: seq<string>, buffer: string)
    ensures TakeAll(st.(buffer := buffer), lines) == TakeAll(st, lines).(buffer := buffer)
    decreases |lines|
  {
    if lines != [] { TakeAllKeepsBuffer(Take(st, lines[0]), lines[1..], buffer); }
  }

  /** A flush takes the complete lines and keeps the rest. */
  lemma FlushIs(st: State)
    ensures Flush(st) == TakeAll(st.(buffer := Rest(st.buffer)), Complete(st.buffer))
  {
    SplitIs(st.buffer);
    var lines := Split(st.buffer);
    assert lines[..|lines| - 1] == Complete(st.buffer);
    if st.buffer != "" && st.buffer[|st.buffer| - 1] == '\n' {
      TakeAllConcat(st.(buffer := ""), Complete(st.buffer), [""]);
      var u := TakeAll(st.(buffer := ""), Complete(st.buffer));
      assert TakeAll(u, [""]) == TakeAll(Take(u, ""), []);
    }
  }

  lemma LineStep(s: string, k: nat)
    requires k < |s| && s[k] == '\n' && forall i :: 0 <= i < k ==> s[i] != '\n'
    ensures Complete(s) == [Chomp(s[..k])] + Complete(s[k + 1..]) && Rest(s) == Rest(s[k + 1..])
  {
  }

  lemma JoinedLineStep(a: string, b: string, k: nat)
    requires k < |a| && a[k] == '\n' && forall i :: 0 <= i < k ==> a[i] != '\n'
    ensures Complete(a + b) == [Chomp(a[..k])] + Complete(a[k + 1..] + b) && Rest(a + b) == Rest(a[k + 1..] + b)
  {
    assert (a + b)[..k] == a[..k] && (a + b)[k + 1..] == a[k + 1..] + b;
    LineStep(a + b, k);
  }

  /** The complete lines of a text in two parts: those of the first part, then those of its rest
      continued by the second. A carriage return at the seam stays in the rest. */
  lemma {:induction false} CompleteConcat(a: string, b: string)
    ensures Complete(a + b) == Complete(a) + Complete(Rest(a) + b)
    ensures Rest(a + b) == Rest(Rest(a) + b)
    decreases |a|
  {
    var k := FirstLf(a);
    if k < |a| {
      LineStep(a, k);
      JoinedLineStep(a, b, k);
      CompleteConcat(a[k + 1..], b);
      Regroup([Chomp(a[..k])], Complete(a[k + 1..]), Complete(Rest(a) + b));
    } else {
      assert Complete(a) == [] && Rest(a) == a;
    }
  }

  lemma TwoChunks(st: State, a: string, b: string)
    ensures OnData(OnData(st, a), b) == OnData(st, a + b)
  {
    var s := st.buffer + a;
    FlushIs(st.(buffer := s));
    var u := OnData(st, a);
    TakeAllKeepsBuffer(st, Complete(s), Rest(s));
    assert u == TakeAll(st, Complete(s)).(buffer := Rest(s));
    FlushIs(u.(buffer := Rest(s) + b));
    TakeAllKeepsBuffer(u, Complete(Rest(s) + b), Rest(Rest(s) + b));
    TakeAllKeepsBuffer(TakeAll(st, Complete(s)), Complete(Rest(s) + b), Rest(Rest(s) + b));
    CompleteConcat(s, b);
    assert s + b == st.buffer + (a + b);
    TakeAllConcat(st, Complete(s), Complete(Rest(s) + b));
    FlushIs(st.(buffer := s + b));
    TakeAllKeepsBuffer(st, Complete(s + b), Rest(s + b));
  }

  /** Chunk invariance: however decoded text is cut, also between CR and LF, feeding the pieces
      ends in the state that feeding it whole ends in: same replies, same waiting reads, same rest. */
  lemma {:induction false} ChunkInvariance(st: State, chunks: seq<string>)
    requires FirstLf(st.buffer) == |st.buffer|
    ensures Feed(st, chunks) == OnData(st, Concat(chunks))
    decreases |chunks|
  {
    if chunks == [] {
      FlushIs(st);
      assert st.buffer + "" == st.buffer;
    } else {
      var u := OnData(st, chunks[0]);
      RestHasNoLf(st, chunks[0]);
      ChunkInvariance(u, chunks[1..]);
      TwoChunks(st, chunks[0], Concat(chunks[1..]));
    }
  }

  lemma RestHasNoLf(st: State, chunk: string)
    ensures OnData(st, chunk).buffer == Rest(st.buffer + chunk)
    ensures FirstLf(OnData(st, chunk).buffer) == |OnData(st, chunk).buffer|
  {
    var s := st.buffer + chunk;
    FlushIs(st.(buffer := s));
    TakeAllKeepsBuffer(st, Complete(s), Rest(s));
    SplitIs(s);
  }

  function Fresh(n: nat): seq<seq<string>> {
    seq(n, _ => [])
  }

  /** Waiting reads of which only the first may have lines, against the replies in the lines. */
  lemma {:induction false} ReadsTakeReplies(st: State, open: seq<string>, n: nat, lines: seq<string>)
    requires st.waiters == [open] + Fresh(n)
    ensures var got := Replies(NonEmpty(lines), open);
      var t := TakeAll(st, lines);
      && t.resolved == st.resolved + (if |got| <= n + 1 then got else got[..n + 1])
      && |t.waiters| == (if |got| <= n + 1 then n + 1 - |got| else 0)
    decreases |lines|
  {
    if lines != [] {
      var t := Take(st, lines[0]);
      if lines[0] == "" {
        assert NonEmpty(lines) == NonEmpty(lines[1..]);
        ReadsTakeReplies(t, open, n, lines[1..]);
      } else if IsLast(lines[0]) {
        var first := open + [lines[0]];
        var rest := Replies(NonEmpty(lines[1..]), []);
        assert NonEmpty(lines) == [lines[0]] + NonEmpty(lines[1..]);
        assert Replies(NonEmpty(lines), open) == [first] + rest;
        assert t.waiters == Fresh(n);
        if n > 0 {
          assert Fresh(n) == [[]] + Fresh(n - 1);
          ReadsTakeReplies(t, [], n - 1, lines[1..]);
        } else {
          NobodyWaits(t, lines[1..]);
        }
        assert t.resolved == st.resolved + [first];
      } else {
        assert NonEmpty(lines)[1..] == NonEmpty(lines[1..]);
        ReadsTakeReplies(t, open + [lines[0]], n, lines[1..]);
      }
    }
  }

  lemma {:induction false} NobodyWaits(st: State, lines: seq<string>)
    requires st.waiters == []
    ensures TakeAll(st, lines) == st
    decreases |lines|
  {
    if lines != [] { NobodyWaits(st, lines[1..]); }
  }

  lemma FreshTakeReplies(st: State, n: nat, lines: seq<string>)
    requires st.waiters == Fresh(n) && st.resolved == []
    ensures var got := Replies(NonEmpty(lines), []);
      var t := TakeAll(st, lines);
      && t.resolved == (if |got| <= n then got else got[..n])
      && |t.waiters| == (if |got| <= n then n - |got| else 0)
  {
    if n == 0 {
      NobodyWaits(st, lines);
    } else {
      assert Fresh(n) == [[]] + Fresh(n - 1);
      ReadsTakeReplies(st, [], n - 1, lines);
    }
  }

  lemma WholeStream(st: State, s: string)
    requires st.buffer == ""
    ensures OnData(st, s) == TakeAll(st, Complete(s)).(buffer := Rest(s))
  {
    assert "" + s == s;
    FlushIs(st.(buffer := s));
    TakeAllKeepsBuffer(st, Complete(s), Rest(s));
  }

  /** What n waiting reads get from a stream, in any chunks: the first n replies among its complete
      non-empty lines, in order; the text behind the last line feed stays in the buffer. */
  lemma ReadsGetTheRepliesInOrder(n: nat, chunks: seq<string>)
    ensures var t := Feed(State("", Fresh(n), []), chunks);
      var got := Replies(NonEmpty(Complete(Concat(chunks))), []);
      && t.resolved == (if |got| <= n then got else got[..n])
      && |t.waiters| == (if |got| <= n then n - |got| else 0)
      && t.buffer == Rest(Concat(chunks))
  {
    var st := State("", Fresh(n), []);
    var s := Concat(chunks);
    ChunkInvariance(st, chunks);
    WholeStream(st, s);
    FreshTakeReplies(st, n, Complete(s));
  }

  /** A reply that arrives while nobody waits is gone: a read issued afterwards does not see it. */
  lemma UnawaitedRepliesAreDropped(st: State, chunk: string)
    requires st.waiters == [] && FirstLf(st.buffer) == |st.buffer|
    ensures Read(OnData(st, chunk)) == State(Rest(st.buffer + chunk), [[]], st.resolved)
  {
    var s := st.buffer + chunk;
    FlushIs(st.(buffer := s));
    NobodyWaits(st.(buffer := Rest(s)), Complete(s));
    RestHasNoLf(st, chunk);
    var u := OnData(st, chunk);
    FlushIs(u.(waiters := [[]]));
  }

  /** The client object: a buffer and the queue of waiting reads, drained line by line. */
  class ReplyReader {
    var buffer: string
    var waiters: seq<seq<string>>
    var resolved: seq<seq<string>>

    function St(): State
      reads this
    {
      State(buffer, waiters, resolved)
    }

    constructor ()
      ensures St() == State("", [], [])
    {
      buffer, waiters, resolved := "", [], [];
    }

    /** Give one line to the first waiting read and resolve it if the line is the last of a reply. */
    method TakeLine(line: string)
      modifies this
      ensures St() == Take(old(St()), line)
    {
      if line == "" || waiters == [] { return; }
      var lines := waiters[0] + [line];
      if IsLast(line) {
        waiters := waiters[1..];
        resolved := resolved + [lines];
      } else {
        waiters := [lines] + waiters[1..];
      }
    }

    method FlushLines()
      modifies this
      ensures St() == Flush(old(St()))
    {
      var lines := Split(buffer);
      if buffer == "" || buffer[|buffer| - 1] != '\n' {
        buffer, lines := lines[|lines| - 1], lines[..|lines| - 1];
      } else {
        buffer := "";
      }
      TakeLines(lines);
    }

    method TakeLines(lines: seq<string>)
      modifies this
      ensures St() == TakeAll(old(St()), lines)
    {
      var i := 0;
      assert lines[0..] == lines;
      while i < |lines|
        invariant i <= |lines|
        invariant TakeAll(St(), lines[i..]) == TakeAll(old(St()), lines)
      {
        ghost var rest := lines[i..];
        assert rest[0] == lines[i] && rest[1..] == lines[i + 1..];
        TakeLine(lines[i]);
        i := i + 1;
      }
    }

    method DataArrived(chunk: string)
      modifies this
      ensures St() == OnData(old(St()), chunk)
    {
      buffer := buffer + chunk;
      FlushLines();
    }

    method StartRead()
      modifies this
      ensures St() == Read(old(St()))
    {
      waiters := waiters + [[]];
      FlushLines();
    }

    /** The socket fails: every waiting read is rejected. */
    method SocketFailed() returns (rejected: seq<seq<string>>)
      modifies this
      ensures rejected == old(waiters) && St() == old(St()).(waiters := [])
    {
      rejected := [];
      while waiters != []
        invariant rejected + waiters == old(waiters) && buffer == old(buffer) && resolved == old(resolved)
        decreases |waiters|
      {
        rejected, waiters := rejected + [waiters[0]], waiters[1..];
      }
    }
  }
}
