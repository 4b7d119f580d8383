/**
 Reads and arriving data in any order: which lines reach a read, and that a server which answers one
 command at a time is heard completely.
 */
module SmtpDialogue {
  import opened Common
  import opened SmtpReplies

  datatype Cmd = Issue | Arrive(chunk: string)

  function StepCmd(st: State, c: Cmd): State {
    if c.Issue? then Read(st) else OnData(st, c.chunk)
  }

  function RunCmds(st: State, cmds: seq<Cmd>): State
    decreases |cmds|
  {
    if cmds == [] then st else RunCmds(StepCmd(st, cmds[0]), cmds[1..])
  }

  /** Everything that arrives. */
  function Text(cmds: seq<Cmd>): string {
    if cmds == [] then "" else (if cmds[0].Arrive? then cmds[0].chunk else "") + Text(cmds[1..])
  }

  function Flat(ss: seq<seq<string>>): seq<string> {
    if ss == [] then [] else ss[0] + Flat(ss[1..])
  }

  /** All lines that reads have been given, finished or not, in the order of the reads. */
  function Given(st: State): seq<string> {
    Flat(st.resolved + st.waiters)
  }

  /** Only the first waiting read has lines, and the buffer holds no complete line. */
  predicate Tidy(st: State) {
    (forall i :: 0 < i < |st.waiters| ==> st.waiters[i] == []) && FirstLf(st.buffer) == |st.buffer|
  }

  lemma {:induction false} FlatConcat(a: seq<seq<string>>, b: seq<seq<string>>)
    ensures Flat(a + b) == Flat(a) + Flat(b)
  {
    if a == [] {
      assert a + b == b;
    } else {
      assert (a + b)[1..] == a[1..] + b;
      FlatConcat(a[1..], b);
    }
  }

  lemma {:induction false} FlatEmpty(ss: seq<seq<string>>)
    requires forall i :: 0 <= i < |ss| ==> ss[i] == []
    ensures Flat(ss) == []
  {
    if ss != [] { FlatEmpty(ss[1..]); }
  }

  lemma FlatFirst(resolved: seq<seq<string>>, first: seq<string>, rest: seq<seq<string>>)
    requires forall i :: 0 <= i < |rest| ==> rest[i] == []
    ensures Flat(resolved + ([first] + rest)) == Flat(resolved) + first
  {
    FlatConcat(resolved, [first] + rest);
    assert ([first] + rest)[1..] == rest;
    FlatEmpty(rest);
  }

  /** One line is given to exactly one read if it is not empty and a read waits, else to none. */
  lemma TakeGives(st: State, line: string)
    requires Tidy(st)
    ensures Tidy(Take(st, line))
    ensures Given(Take(st, line)) == Given(st) + if line != "" && st.waiters != [] then [line] else []
  {
    if line != "" && st.waiters != [] {
      var rest, lines := st.waiters[1..], st.waiters[0] + [line];
      assert st.waiters == [st.waiters[0]] + rest;
      FlatFirst(st.resolved, st.waiters[0], rest);
      FlatFirst(st.resolved, lines, rest);
      assert st.resolved + [lines] + rest == st.resolved + ([lines] + rest);
    }
  }

  /** Non-empty lines taken while nobody waits. */
  function Missed(st: State, lines: seq<string>): nat
    decreases |lines|
  {
    if lines == [] then 0
    else (if lines[0] != "" && st.waiters == [] then 1 else 0) + Missed(Take(st, lines[0]), lines[1..])
  }

  lemma {:induction false} TakeAllGives(st: State, lines: seq<string>)
    requires Tidy(st)
    ensures var t := TakeAll(st, lines);
      && Tidy(t)
      && |Given(t)| + Missed(st, lines) == |Given(st)| + |NonEmpty(lines)|
      && (Missed(st, lines) == 0 ==> Given(t) == Given(st) + NonEmpty(lines))
    decreases |lines|
  {
    if lines != [] {
      var line, rest, u := lines[0], lines[1..], Take(st, lines[0]);
      TakeGives(st, line);
      TakeAllGives(u, rest);
      if line == "" {
        assert NonEmpty(lines) == NonEmpty(rest);
      } else {
        assert NonEmpty(lines) == [line] + NonEmpty(rest);
        if st.waiters != [] { Regroup(Given(st), [line], NonEmpty(rest)); }
      }
    }
  }

  // ---------------------------------------------------------------- when a line is missed

  /** The begun reply behind the last finished one. */
  function Unfinished(lines: seq<string>, open: seq<string>): seq<string>
    decreases |lines|
  {
    if lines == [] then open
    else Unfinished(lines[1..], if IsLast(lines[0]) then [] else open + [lines[0]])
  }

  /** The reads these lines need: one for each reply, and one for a begun reply. */
  function NeededReads(lines: seq<string>, open: seq<string>): nat {
    |Replies(lines, open)| + if Unfinished(lines, open) != [] then 1 else 0
  }

  function OpenOf(st: State): seq<string> {
    if st.waiters == [] then [] else st.waiters[0]
  }

  lemma {:induction false} NeedsOne(lines: seq<string>, open: seq<string>)
    requires lines != [] || open != []
    ensures NeededReads(lines, open) >= 1
    decreases |lines|
  {
    if lines != [] && !IsLast(lines[0]) { NeedsOne(lines[1..], open + [lines[0]]); }
  }

  /** No line of what is taken is missed if and only if the replies in it, a begun one included, do
      not outnumber the waiting reads. */
  lemma {:induction false} NothingMissedIff(st: State, lines: seq<string>)
    requires Tidy(st)
    ensures Missed(st, lines) == 0 <==> NeededReads(NonEmpty(lines), OpenOf(st)) <= |st.waiters|
    decreases |lines|
  {
    if lines != [] {
      var line, t := lines[0], Take(st, lines[0]);
      TakeGives(st, line);
      NothingMissedIff(t, lines[1..]);
      if line == "" {
        assert NonEmpty(lines) == NonEmpty(lines[1..]);
      } else {
        assert NonEmpty(lines)[1..] == NonEmpty(lines[1..]);
        if st.waiters == [] {
          NeedsOne(NonEmpty(lines), []);
        } else if IsLast(line) {
          assert t.waiters == st.waiters[1..];
          assert OpenOf(t) == [];
          assert Replies(NonEmpty(lines), OpenOf(st)) == [OpenOf(st) + [line]] + Replies(NonEmpty(lines[1..]), []);
        }
      }
    }
  }

  /** At every arrival the replies completed or begun by it do not outnumber the waiting reads. */
  predicate AllAwaited(st: State, cmds: seq<Cmd>)
    decreases |cmds|
  {
    cmds == [] ||
    ((cmds[0].Arrive? ==>
        NeededReads(NonEmpty(Complete(st.buffer + cmds[0].chunk)), OpenOf(st)) <= |st.waiters|)
     && AllAwaited(StepCmd(st, cmds[0]), cmds[1..]))
  }

  lemma {:induction false} NonEmptyConcat(a: seq<string>, b: seq<string>)
    ensures NonEmpty(a + b) == NonEmpty(a) + NonEmpty(b)
  {
    if a == [] {
      assert a + b == b;
    } else {
      assert (a + b)[1..] == a[1..] + b;
      NonEmptyConcat(a[1..], b);
    }
  }

  lemma IssueGives(st: State)
    requires Tidy(st)
    ensures Read(st) == st.(waiters := st.waiters + [[]]) && Tidy(Read(st)) && Given(Read(st)) == Given(st)
  {
    var t := st.(waiters := st.waiters + [[]]);
    FlushIs(t);
    assert Complete(t.buffer) == [] && Rest(t.buffer) == t.buffer;
    FlatConcat(st.resolved + st.waiters, [[]]);
    assert st.resolved + (st.waiters + [[]]) == (st.resolved + st.waiters) + [[]];
    FlatEmpty([[]]);
  }

  /** From one state to another at most these lines were given, and all of them exactly if `all`. */
  predicate Accounted(st: State, t: State, lines: seq<string>, all: bool) {
    && |Given(t)| <= |Given(st)| + |lines|
    && (|Given(t)| == |Given(st)| + |lines| <==> all)
    && (all ==> Given(t) == Given(st) + lines)
  }

  lemma AccountedTwice(s: State, t: State, u: State, a: seq<string>, b: seq<string>, first: bool, second: bool)
    requires Accounted(s, t, a, first) && Accounted(t, u, b, second)
    ensures Accounted(s, u, a + b, first && second)
  {
    Regroup(Given(s), a, b);
  }

  lemma ArriveGives(st: State, chunk: string)
    requires Tidy(st)
    ensures var lines, t := Complete(st.buffer + chunk), OnData(st, chunk);
      && Tidy(t) && t.buffer == Rest(st.buffer + chunk)
      && Accounted(st, t, NonEmpty(lines), NeededReads(NonEmpty(lines), OpenOf(st)) <= |st.waiters|)
  {
    var s := st.buffer + chunk;
    FlushIs(st.(buffer := s));
    TakeAllKeepsBuffer(st, Complete(s), Rest(s));
    TakeAllGives(st, Complete(s));
    NothingMissedIff(st, Complete(s));
    RestHasNoLf(st, chunk);
    assert Given(OnData(st, chunk)) == Given(TakeAll(st, Complete(s)));
  }

  /** The lines of a buffer, a chunk and what comes later. */
  lemma LinesOnwards(buffer: string, chunk: string, more: string)
    ensures NonEmpty(Complete(buffer + (chunk + more)))
         == NonEmpty(Complete(buffer + chunk)) + NonEmpty(Complete(Rest(buffer + chunk) + more))
  {
    var s := buffer + chunk;
    CompleteConcat(s, more);
    NonEmptyConcat(Complete(s), Complete(Rest(s) + more));
    assert buffer + (chunk + more) == s + more;
  }

  lemma {:induction false} RunGives(st: State, cmds: seq<Cmd>)
    requires Tidy(st)
    ensures Accounted(st, RunCmds(st, cmds), NonEmpty(Complete(st.buffer + Text(cmds))), AllAwaited(st, cmds))
    decreases |cmds|
  {
    if cmds == [] {
      assert st.buffer + "" == st.buffer;
    } else {
      var c, rest := cmds[0], cmds[1..];
      var u := StepCmd(st, c);
      if c.Issue? {
        IssueGives(st);
        RunGives(u, rest);
        assert Text(cmds) == Text(rest);
      } else {
        ArriveGives(st, c.chunk);
        RunGives(u, rest);
        LinesOnwards(st.buffer, c.chunk, Text(rest));
        assert Text(cmds) == c.chunk + Text(rest);
        var here := NonEmpty(Complete(st.buffer + c.chunk));
        AccountedTwice(st, u, RunCmds(u, rest), here, NonEmpty(Complete(u.buffer + Text(rest))),
                       NeededReads(here, OpenOf(st)) <= |st.waiters|, AllAwaited(u, rest));
      }
    }
  }

  /** Reads issued and data arriving in any order, cut in any way: the reads are given all complete
      non-empty lines of the stream, in order, if and only if no arrival completes or begins more
      replies than there are reads waiting; otherwise lines are missing. */
  lemma EveryLineIsReadIff(cmds: seq<Cmd>)
    ensures Given(RunCmds(State("", [], []), cmds)) == NonEmpty(Complete(Text(cmds)))
       <==> AllAwaited(State("", [], []), cmds)
    ensures |Given(RunCmds(State("", [], []), cmds))| <= |NonEmpty(Complete(Text(cmds)))|
  {
    var st := State("", [], []);
    RunGives(st, cmds);
    assert "" + Text(cmds) == Text(cmds);
    assert Given(st) == [];
  }

  // ---------------------------------------------------------------- one command at a time

  /** A text that is one whole reply. */
  predicate IsReply(text: string) {
    var lines := NonEmpty(Complete(text));
    Rest(text) == "" && Replies(lines, []) == [lines]
  }

  function Arrivals(chunks: seq<string>): seq<Cmd> {
    seq(|chunks|, i requires 0 <= i < |chunks| => Arrive(chunks[i]))
  }

  /** A read, then the reply to it in some chunks, again and again. */
  function Dialogue(replies: seq<seq<string>>): seq<Cmd> {
    if replies == [] then [] else [Issue] + Arrivals(replies[0]) + Dialogue(replies[1..])
  }

  function LinesOf(replies: seq<seq<string>>): seq<seq<string>> {
    if replies == [] then [] else [NonEmpty(Complete(Concat(replies[0])))] + LinesOf(replies[1..])
  }

  lemma {:induction false} RunArrivals(st: State, chunks: seq<string>, cmds: seq<Cmd>)
    ensures RunCmds(st, Arrivals(chunks) + cmds) == RunCmds(Feed(st, chunks), cmds)
    decreases |chunks|
  {
    if chunks == [] {
      assert Arrivals(chunks) + cmds == cmds;
    } else {
      assert (Arrivals(chunks) + cmds)[1..] == Arrivals(chunks[1..]) + cmds;
      RunArrivals(OnData(st, chunks[0]), chunks[1..], cmds);
    }
  }

  lemma OneAnswer(resolved: seq<seq<string>>, chunks: seq<string>)
    requires IsReply(Concat(chunks))
    ensures Feed(Read(State("", [], resolved)), chunks)
         == State("", [], resolved + [NonEmpty(Complete(Concat(chunks)))])
  {
    var u, s := State("", [[]], resolved), Concat(chunks);
    FlushIs(u);
    assert Read(State("", [], resolved)) == u;
    calc {
      Feed(u, chunks);
    ==  { ChunkInvariance(u, chunks); }
      OnData(u, s);
    ==  { WholeStream(u, s); }
      TakeAll(u, Complete(s)).(buffer := "");
    ==  { TakeAllKeepsBuffer(u, Complete(s), ""); OneReplyTaken(u, Complete(s)); }
      State("", [], resolved + [NonEmpty(Complete(s))]);
    }
  }

  /** A single waiting read and the lines of one reply. */
  lemma OneReplyTaken(u: State, lines: seq<string>)
    requires u.waiters == [[]] && Replies(NonEmpty(lines), []) == [NonEmpty(lines)]
    ensures TakeAll(u, lines).waiters == [] && TakeAll(u, lines).resolved == u.resolved + [NonEmpty(lines)]
  {
    assert u.waiters == [[]] + Fresh(0);
    ReadsTakeReplies(u, [], 0, lines);
  }

  /** A server that answers each read with one reply, in any chunks and not before the read, is heard
      completely: every read gets its own reply, and nothing is left over. */
  lemma {:induction false} LockStepAnswersEveryRead(resolved: seq<seq<string>>, replies: seq<seq<string>>)
    requires forall i :: 0 <= i < |replies| ==> IsReply(Concat(replies[i]))
    ensures RunCmds(State("", [], resolved), Dialogue(replies)) == State("", [], resolved + LinesOf(replies))
    decreases |replies|
  {
    if replies == [] {
      assert resolved + LinesOf(replies) == resolved;
    } else {
      var lines := NonEmpty(Complete(Concat(replies[0])));
      var cmds := Arrivals(replies[0]) + Dialogue(replies[1..]);
      assert Dialogue(replies) == [Issue] + cmds && ([Issue] + cmds)[1..] == cmds;
      RunArrivals(Read((State("", [], resolved))), replies[0], Dialogue(replies[1..]));
      OneAnswer(resolved, replies[0]);
      LockStepAnswersEveryRead(resolved + [lines], replies[1..]);
      assert LinesOf(replies) == [lines] + LinesOf(replies[1..]);
      Regroup(resolved, [lines], LinesOf(replies[1..]));
    }
  }

  // ---------------------------------------------------------------- replies as servers build them

  /** Three decimal digits. */
  predicate IsCode(code: string) {
    |code| == 3 && forall i :: 0 <= i < 3 ==> '0' <= code[i] <= '9'
  }

  /** The lines of a reply (section 4.2.1 of RFC 5321): the code, a hyphen and a text, the last one with
      a space instead. */
  function ReplyLines(code: string, texts: seq<string>): seq<string> {
    if texts == [] then []
    else if |texts| == 1 then [code + " " + texts[0]]
    else [code + "-" + texts[0]] + ReplyLines(code, texts[1..])
  }

  function Wire(lines: seq<string>): string {
    if lines == [] then "" else lines[0] + "\r\n" + Wire(lines[1..])
  }

  predicate OneLine(text: string) {
    '\n' !in text
  }

  /** Non-empty lines of which only the last one ends a reply. */
  predicate FormReply(lines: seq<string>) {
    && lines != [] && (forall i :: 0 <= i < |lines| ==> OneLine(lines[i]) && lines[i] != "")
    && (forall i :: 0 <= i < |lines| ==> (IsLast(lines[i]) <==> i == |lines| - 1))
  }

  lemma {:induction false} BuiltLines(code: string, texts: seq<string>)
    requires IsCode(code) && texts != [] && forall i :: 0 <= i < |texts| ==> OneLine(texts[i])
    ensures FormReply(ReplyLines(code, texts)) && |ReplyLines(code, texts)| == |texts|
  {
    if |texts| > 1 {
      BuiltLines(code, texts[1..]);
      var first := code + "-" + texts[0];
      assert first[..3] == code && first[3] == '-';
    } else {
      var only := code + " " + texts[0];
      assert only[..3] == code && only[3] == ' ' && only[0] == code[0] && only[1] == code[1] && only[2] == code[2];
    }
  }

  lemma {:induction false} WireIsLines(lines: seq<string>)
    requires forall i :: 0 <= i < |lines| ==> OneLine(lines[i])
    ensures Complete(Wire(lines)) == lines && Rest(Wire(lines)) == ""
  {
    if lines != [] {
      WireIsLines(lines[1..]);
      WireLine(lines[0], Wire(lines[1..]));
      assert [lines[0]] + lines[1..] == lines;
    }
  }

  lemma WireLine(line: string, rest: string)
    requires OneLine(line)
    ensures Complete(line + "\r\n" + rest) == [line] + Complete(rest) && Rest(line + "\r\n" + rest) == Rest(rest)
  {
    var s, k, body := line + "\r\n" + rest, |line| + 1, line + "\r";
    assert s[..k] == body && s[k] == '\n' && s[k + 1..] == rest;
    forall i | 0 <= i < k ensures s[i] != '\n' {
      assert s[i] == body[i];
      if i < |line| { assert body[i] == line[i] && line[i] in line; }
    }
    LineStep(s, k);
    assert body[..|line|] == line;
  }

  lemma {:induction false} AllNonEmpty(lines: seq<string>)
    requires forall i :: 0 <= i < |lines| ==> lines[i] != ""
    ensures NonEmpty(lines) == lines
  {
    if lines != [] { AllNonEmpty(lines[1..]); }
  }

  lemma {:induction false} NoReplyYet(lines: seq<string>, open: seq<string>)
    requires forall i :: 0 <= i < |lines| ==> !IsLast(lines[i])
    ensures Replies(lines, open) == []
    decreases |lines|
  {
    if lines != [] { NoReplyYet(lines[1..], open + [lines[0]]); }
  }

  lemma {:induction false} OneReply(lines: seq<string>, open: seq<string>)
    requires lines != [] && forall i :: 0 <= i < |lines| ==> (IsLast(lines[i]) <==> i == |lines| - 1)
    ensures Replies(lines, open) == [open + lines]
    decreases |lines|
  {
    assert [lines[0]] + lines[1..] == lines;
    if |lines| == 1 {
      assert Replies(lines[1..], []) == [] && lines == [lines[0]];
    } else {
      OneReply(lines[1..], open + [lines[0]]);
      Regroup(open, [lines[0]], lines[1..]);
    }
  }

  lemma FormedIsReply(lines: seq<string>)
    requires FormReply(lines)
    ensures IsReply(Wire(lines)) && NonEmpty(Complete(Wire(lines))) == lines
  {
    WireIsLines(lines);
    AllNonEmpty(lines);
    OneReply(lines, []);
    assert [] + lines == lines;
  }

  /** What a server builds is one reply, with exactly these lines. */
  lemma BuiltReplyIsReply(code: string, texts: seq<string>)
    requires IsCode(code) && texts != [] && forall i :: 0 <= i < |texts| ==> OneLine(texts[i])
    ensures var lines := ReplyLines(code, texts);
      IsReply(Wire(lines)) && NonEmpty(Complete(Wire(lines))) == lines
  {
    BuiltLines(code, texts);
    FormedIsReply(ReplyLines(code, texts));
  }

  /** A waiting read and a reply built of a code and texts, in any chunks: the read gets exactly the
      lines, without their CR LF, and not before the last character has arrived. */
  lemma BuiltReplyIsRead(code: string, texts: seq<string>, chunks: seq<string>)
    requires IsCode(code) && texts != [] && forall i :: 0 <= i < |texts| ==> OneLine(texts[i])
    requires Concat(chunks) <= Wire(ReplyLines(code, texts))
    ensures var st, whole := Feed(State("", [[]], []), chunks), Wire(ReplyLines(code, texts));
      && (Concat(chunks) == whole ==> st == State("", [], [ReplyLines(code, texts)]))
      && (Concat(chunks) != whole ==> st.resolved == [] && |st.waiters| == 1)
  {
    var lines := ReplyLines(code, texts);
    BuiltLines(code, texts);
    if Concat(chunks) == Wire(lines) {
      WholeReply([], lines, chunks);
      assert [] + [lines] == [lines];
    } else {
      BegunReply(lines, chunks);
    }
  }

  lemma WholeReply(resolved: seq<seq<string>>, lines: seq<string>, chunks: seq<string>)
    requires FormReply(lines) && Concat(chunks) == Wire(lines)
    ensures Feed(State("", [[]], resolved), chunks) == State("", [], resolved + [lines])
  {
    var u := State("", [[]], resolved);
    FlushIs(u);
    assert Read(State("", [], resolved)) == u;
    FormedIsReply(lines);
    OneAnswer(resolved, chunks);
  }

  lemma {:induction false} EndsInLf(lines: seq<string>)
    requires lines != []
    ensures Wire(lines) != "" && Wire(lines)[|Wire(lines)| - 1] == '\n'
  {
    if |lines| > 1 { EndsInLf(lines[1..]); }
  }

  /** A proper beginning of the wire has not reached the last line. */
  lemma BegunReply(lines: seq<string>, chunks: seq<string>)
    requires FormReply(lines) && Concat(chunks) < Wire(lines)
    ensures var st := Feed(State("", [[]], []), chunks); st.resolved == [] && |st.waiters| == 1
  {
    var got := Complete(Concat(chunks));
    BegunLines(lines, Concat(chunks));
    AllNonEmpty(got);
    NoReplyYet(got, []);
    assert Fresh(1) == [[]];
    ReadsGetTheRepliesInOrder(1, chunks);
  }

  predicate NoneLast(lines: seq<string>) {
    forall i :: 0 <= i < |lines| ==> lines[i] != "" && !IsLast(lines[i])
  }

  lemma BegunLines(lines: seq<string>, s: string)
    requires FormReply(lines) && s < Wire(lines)
    ensures NoneLast(Complete(s))
  {
    var got, tail := Complete(s), Rest(s) + Wire(lines)[|s|..];
    BegunSplit(lines, s);
    HasLine(tail);
    assert |got| < |lines|;
    forall i | 0 <= i < |got| ensures got[i] == lines[i] { assert (got + Complete(tail))[i] == got[i]; }
  }

  lemma BegunSplit(lines: seq<string>, s: string)
    requires FormReply(lines) && s < Wire(lines)
    ensures var tail := Rest(s) + Wire(lines)[|s|..];
      Complete(s) + Complete(tail) == lines && tail != "" && tail[|tail| - 1] == '\n'
  {
    var w, q := Wire(lines), Wire(lines)[|s|..];
    assert w == s + q;
    WireIsLines(lines);
    CompleteConcat(s, q);
    EndsInLf(lines);
    assert q[|q| - 1] == '\n';
  }

  lemma HasLine(s: string)
    requires s != "" && s[|s| - 1] == '\n'
    ensures Complete(s) != []
  {
    assert FirstLf(s) < |s|;
  }
}
