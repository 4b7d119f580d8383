/**
 Dot stuffing of a mail body and the receiver that undoes it (section 4.5.2 of RFC 5321).
 */
module DotStuffing {
  import opened Common

  /** The characters after which the sender's pattern sees a new line. */
  predicate IsTerminator(c: char) {
    c == '\n' || c == '\r' || c == '\U{2028}' || c == '\U{2029}'
  }

  /** The sender doubles every dot at the start of what it takes for a line. */
  function Stuff(atStart: bool, s: string): string
    decreases |s|
  {
    if s == "" then ""
    else if atStart && s[0] == '.' then ".." + Stuff(false, s[1..])
    else [s[0]] + Stuff(IsTerminator(s[0]), s[1..])
  }

  function DotStuff(message: string): string {
    Stuff(true, message)
  }

  /** Where a receiver is: only CR LF starts a new line for it. */
  datatype Position = LineStart | SawCr | Inside

  function Next(p: Position, c: char): Position {
    if c == '\r' then SawCr else if c == '\n' && p == SawCr then LineStart else Inside
  }

  /** The receiver: a line of one dot ends the data, a leading dot of any other line is removed.
      Returns the data and what follows the end of data, or None if the end has not come. */
  function Receive(p: Position, wire: string): Option<(string, string)>
    decreases |wire|
  {
    if p == LineStart && |wire| >= 3 && wire[..3] == ".\r\n" then Some(("", wire[3..]))
    else if wire == "" then None
    else if p == LineStart && wire[0] == '.' then Receive(Inside, wire[1..])
    else
      match Receive(Next(p, wire[0]), wire[1..])
      case None => None
      case Some((data, rest)) => Some(([wire[0]] + data, rest))
  }

  /** What is sent after DATA. */
  function Wire(atStart: bool, message: string): string {
    Stuff(atStart, message) + "\r\n.\r\n"
  }

  /** What arrives: every dot the sender doubled behind a terminator that is no CR LF stays doubled. */
  function Arrives(p: Position, atStart: bool, s: string): string
    decreases |s|
  {
    if s == "" then ""
    else (if atStart && s[0] == '.' && p != LineStart then ".." else [s[0]])
         + Arrives(Next(p, s[0]), !(atStart && s[0] == '.') && IsTerminator(s[0]), s[1..])
  }

  /** What the receiver does with one character it copies. */
  lemma CopyStep(p: Position, c: char, tail: string, data: string)
    requires !(p == LineStart && c == '.') && Receive(Next(p, c), tail) == Some((data, ""))
    ensures Receive(p, [c] + tail) == Some(([c] + data, ""))
  {
    assert ([c] + tail)[1..] == tail;
    if |[c] + tail| >= 3 { assert ([c] + tail)[..3][0] == c; }
  }

  lemma ReceiveEnd(p: Position)
    ensures Receive(p, "\r\n.\r\n") == Some(("\r\n", ""))
  {
    assert Receive(LineStart, ".\r\n") == Some(("", "")) by {
      assert ".\r\n"[..3] == ".\r\n" && ".\r\n"[3..] == "";
    }
    CopyStep(SawCr, '\n', ".\r\n", "");
    assert ['\n'] + ".\r\n" == "\n.\r\n" && ['\n'] + "" == "\n";
    CopyStep(p, '\r', "\n.\r\n", "\n");
    assert ['\r'] + "\n.\r\n" == "\r\n.\r\n" && ['\r'] + "\n" == "\r\n";
  }

  lemma {:induction false} ReceiveWire(p: Position, atStart: bool, s: string)
    requires p == LineStart ==> atStart
    ensures Receive(p, Wire(atStart, s)) == Some((Arrives(p, atStart, s) + "\r\n", ""))
    decreases |s|, 1
  {
    if s == "" {
      ReceiveEnd(p);
      assert Wire(atStart, s) == "\r\n.\r\n" && Arrives(p, atStart, s) + "\r\n" == "\r\n";
    } else if atStart && s[0] == '.' {
      ReceiveDot(p, s);
    } else {
      ReceivePlain(p, atStart, s);
    }
  }

  lemma {:induction false} ReceiveDot(p: Position, s: string)
    requires s != "" && s[0] == '.'
    ensures Receive(p, Wire(true, s)) == Some((Arrives(p, true, s) + "\r\n", ""))
    decreases |s|, 0
  {
    var tail := Wire(false, s[1..]);
    var data := Arrives(Inside, false, s[1..]) + "\r\n";
    ReceiveWire(Inside, false, s[1..]);
    CopyStep(Inside, '.', tail, data);
    DotUnfolds(p, s);
    if p == LineStart {
      var w := ['.'] + (['.'] + tail);
      assert w[1..] == (['.'] + tail);
      if |w| >= 3 { assert w[..3][1] == '.'; }
    } else {
      CopyStep(p, '.', ['.'] + tail, ['.'] + data);
    }
  }

  /** A leading dot on the wire and on arrival. */
  lemma DotUnfolds(p: Position, s: string)
    requires s != "" && s[0] == '.'
    ensures Wire(true, s) == ['.'] + (['.'] + Wire(false, s[1..]))
    ensures var data := Arrives(Inside, false, s[1..]) + "\r\n";
      Arrives(p, true, s) + "\r\n" == if p == LineStart then ['.'] + data else ['.'] + (['.'] + data)
  {
    assert Stuff(true, s) == ".." + Stuff(false, s[1..]);
    assert Arrives(p, true, s) == (if p != LineStart then ".." else ['.']) + Arrives(Inside, false, s[1..]);
  }

  lemma {:induction false} ReceivePlain(p: Position, atStart: bool, s: string)
    requires s != "" && !(atStart && s[0] == '.') && (p == LineStart ==> atStart)
    ensures Receive(p, Wire(atStart, s)) == Some((Arrives(p, atStart, s) + "\r\n", ""))
    decreases |s|, 0
  {
    var start := IsTerminator(s[0]);
    ReceiveWire(Next(p, s[0]), start, s[1..]);
    CopyStep(p, s[0], Wire(start, s[1..]), Arrives(Next(p, s[0]), start, s[1..]) + "\r\n");
    PlainUnfolds(p, atStart, s);
  }

  lemma PlainUnfolds(p: Position, atStart: bool, s: string)
    requires s != "" && !(atStart && s[0] == '.')
    ensures Wire(atStart, s) == [s[0]] + Wire(IsTerminator(s[0]), s[1..])
    ensures Arrives(p, atStart, s) + "\r\n"
         == [s[0]] + (Arrives(Next(p, s[0]), IsTerminator(s[0]), s[1..]) + "\r\n")
  {
    assert Stuff(atStart, s) == [s[0]] + Stuff(IsTerminator(s[0]), s[1..]);
    Regroup([s[0]], Stuff(IsTerminator(s[0]), s[1..]), "\r\n.\r\n");
    assert Arrives(p, atStart, s) == [s[0]] + Arrives(Next(p, s[0]), IsTerminator(s[0]), s[1..]);
    Regroup([s[0]], Arrives(Next(p, s[0]), IsTerminator(s[0]), s[1..]), "\r\n");
  }

  /** No dot stands behind a line terminator other than CR LF. */
  predicate Clean(p: Position, atStart: bool, s: string)
    decreases |s|
  {
    s == "" ||
    (!(atStart && s[0] == '.' && p != LineStart)
     && Clean(Next(p, s[0]), !(atStart && s[0] == '.') && IsTerminator(s[0]), s[1..]))
  }

  lemma {:induction false} ArrivesIsSentIff(p: Position, atStart: bool, s: string)
    ensures |Arrives(p, atStart, s)| >= |s|
    ensures Arrives(p, atStart, s) == s <==> Clean(p, atStart, s)
    decreases |s|
  {
    if s != "" {
      var q, b := Next(p, s[0]), !(atStart && s[0] == '.') && IsTerminator(s[0]);
      ArrivesIsSentIff(q, b, s[1..]);
      if atStart && s[0] == '.' && p != LineStart {
        assert |Arrives(p, atStart, s)| > |s|;
      } else {
        assert Arrives(p, atStart, s) == [s[0]] + Arrives(q, b, s[1..]);
        assert s == [s[0]] + s[1..];
        assert Arrives(p, atStart, s)[1..] == Arrives(q, b, s[1..]);
      }
    }
  }

  /** A dot right behind a CR, one of the two Unicode separators, or an LF that does not end a CR LF. */
  predicate BareDot(s: string, i: int) {
    && 0 < i < |s| && s[i] == '.'
    && (s[i - 1] == '\r' || s[i - 1] == '\U{2028}' || s[i - 1] == '\U{2029}'
        || (s[i - 1] == '\n' && !(i >= 2 && s[i - 2] == '\r')))
  }

  /** Every dot right behind a line terminator stands behind a CR LF. */
  predicate DotsOnlyAfterCrLf(s: string) {
    forall i :: 0 <= i < |s| ==> !BareDot(s, i)
  }

  function PositionAt(s: string, k: nat): Position
    requires k <= |s|
  {
    if k == 0 then LineStart else Next(PositionAt(s, k - 1), s[k - 1])
  }

  lemma {:induction false} PositionMeans(s: string, k: nat)
    requires k <= |s|
    ensures PositionAt(s, k) == SawCr <==> k > 0 && s[k - 1] == '\r'
    ensures PositionAt(s, k) == LineStart <==> k == 0 || (k >= 2 && s[k - 1] == '\n' && s[k - 2] == '\r')
  {
    if k > 0 { PositionMeans(s, k - 1); }
  }

  lemma {:induction false} CleanMeans(s: string, k: nat)
    requires k <= |s|
    ensures Clean(PositionAt(s, k), k == 0 || IsTerminator(s[k - 1]), s[k..])
       <==> forall i :: k <= i < |s| ==> !BareDot(s, i)
    decreases |s| - k
  {
    PositionMeans(s, k);
    if k < |s| {
      CleanMeans(s, k + 1);
      assert s[k..][1..] == s[k + 1..] && s[k..][0] == s[k];
      assert BareDot(s, k) <==> (k == 0 || IsTerminator(s[k - 1])) && s[k] == '.' && PositionAt(s, k) != LineStart;
    }
  }

  /** Transparency: whatever the message, the receiver finds the end of data exactly where the
      sender put it; and it gets the message unchanged (with the CR LF that precedes the closing
      dot) if and only if every dot behind a line terminator stands behind a CR LF. */
  lemma Transparency(message: string)
    ensures var r := Receive(LineStart, DotStuff(message) + "\r\n.\r\n");
      && r.Some? && r.value.1 == ""
      && |r.value.0| >= |message| + 2
      && (r.value.0 == message + "\r\n" <==> DotsOnlyAfterCrLf(message))
  {
    ReceiveWire(LineStart, true, message);
    ArrivesIsSentIff(LineStart, true, message);
    CleanMeans(message, 0);
    assert message[0..] == message;
    var a := Arrives(LineStart, true, message);
    if a + "\r\n" == message + "\r\n" {
      assert (a + "\r\n")[..|a|] == a && (message + "\r\n")[..|message|] == message;
    }
  }

  /** A dot behind a bare line feed arrives doubled. */
  lemma BareLineFeedDotIsDoubled()
    ensures DotStuff("a\n.b") == "a\n..b"
    ensures Receive(LineStart, DotStuff("a\n.b") + "\r\n.\r\n") == Some(("a\n..b\r\n", ""))
  {
    var m := "a\n.b";
    assert m[1..] == "\n.b" && m[1..][1..] == ".b" && m[1..][1..][1..] == "b" && "b"[1..] == "";
    assert Stuff(true, ".b") == ".." + Stuff(false, "b");
    assert Stuff(true, m) == "a\n..b";
    ReceiveWire(LineStart, true, m);
    assert Arrives(Inside, true, ".b") == ".." + Arrives(Inside, false, "b");
    assert Arrives(LineStart, true, m) == "a\n..b";
    assert "a\n..b" + "\r\n" == "a\n..b\r\n";
  }
}
