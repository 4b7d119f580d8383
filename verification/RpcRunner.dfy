/**
 One remote call: the layer chain, the ways each layer can end, and the semaphore permit the
 call holds. Exceptions are results; everything the outside decides is in `Call`.
 */
module RpcRunner {
  import opened Common
  import opened ConsLists

  datatype Access = Public | Private | Permission
  datatype Csrf = CsrfOk | CsrfBad | CsrfThrows
  datatype Ending = Returns | ReturnsError | ThrowsError | ThrowsNullish

  /** A layer of the chain. An extra layer may release the permit, halt and throw as it likes. */
  datatype Layer =
    | NotAFunction
    | Extra(leaves: nat, halts: bool, throws: bool)
    | Restore
    | Authorize
    | Invoke

  /** Which writes to the client or to a log throw. */
  datatype Writes = Writes(error: bool, send: bool, clearCookies: bool, accessLog: bool, timingLog: bool)

  /** What a call meets on its way; `permitted` says that the caller is a super admin or holds the
      permission the method asks for. */
  datatype Call = Call(
    isPacket: bool, admitted: bool, wellFormed: bool, methodIsText: bool, found: bool, contextThrows: bool,
    cookiesThrow: bool, hasSession: bool, procThrows: bool, access: Access, permitted: bool, csrf: Csrf,
    ending: Ending, writes: Writes)

  /** Why authorize turns a call away, if it does. */
  predicate Refused(c: Call) {
    c.access != Public
    && (!c.hasSession || (c.access == Permission && !c.permitted) || c.csrf == CsrfBad)
  }

  predicate RefusalThrows(c: Call) {
    c.writes.error || (!c.hasSession && c.writes.clearCookies)
  }

  /** Does authorize throw before it has decided anything? */
  predicate AuthorizeBreaks(c: Call) {
    c.procThrows
    || (c.access != Public && c.hasSession && (c.access == Permission ==> c.permitted) && c.csrf == CsrfThrows)
  }

  /** Does the catch block of invoke run? Either the method throws or something behind it does. */
  predicate InvokeCatches(c: Call) {
    c.ending == ThrowsError || c.ending == ThrowsNullish || c.writes.timingLog
    || (c.ending == ReturnsError && c.writes.error) || (c.ending == Returns && c.writes.send)
  }

  /** Does an exception leave invoke? Reading the code of a thrown null or undefined throws again. */
  predicate InvokeThrows(c: Call) {
    InvokeCatches(c) && (c.writes.timingLog || c.ending == ThrowsNullish || c.writes.error)
  }

  predicate Halts(l: Layer, c: Call) {
    match l
    case Extra(_, halts, throws) => halts && !throws
    case Authorize => !AuthorizeBreaks(c) && Refused(c) && !RefusalThrows(c)
    case _ => false
  }

  predicate Throws(l: Layer, c: Call) {
    match l
    case Extra(_, _, throws) => throws
    case Restore => c.cookiesThrow
    case Authorize => AuthorizeBreaks(c) || (Refused(c) && RefusalThrows(c))
    case Invoke => InvokeThrows(c)
    case NotAFunction => false
  }

  /** How often a layer releases the permit. */
  function Leaves(l: Layer, c: Call): nat {
    match l
    case Extra(leaves, _, _) => leaves
    case Authorize => if !AuthorizeBreaks(c) && Refused(c) then 1 else 0
    case Invoke => 1
    case _ => 0
  }

  predicate Stops(l: Layer, c: Call) {
    Halts(l, c) || Throws(l, c)
  }

  /** The layers that run: all functions up to and including the first that halts or throws. */
  function Ran(layers: seq<Layer>, c: Call): seq<Layer> {
    if layers == [] then []
    else if layers[0] == NotAFunction then Ran(layers[1..], c)
    else [layers[0]] + (if Stops(layers[0], c) then [] else Ran(layers[1..], c))
  }

  function Functions(layers: seq<Layer>): seq<Layer> {
    if layers == [] then []
    else (if layers[0] == NotAFunction then [] else [layers[0]]) + Functions(layers[1..])
  }

  function TotalLeaves(ran: seq<Layer>, c: Call): nat {
    if ran == [] then 0 else Leaves(ran[0], c) + TotalLeaves(ran[1..], c)
  }

  /** All layers before the last one that ran let the call through, and the last one stops it
      unless every function of the chain ran. */
  predicate StopsAtEnd(ran: seq<Layer>, functions: seq<Layer>, c: Call) {
    && ran <= functions
    && (forall i :: 0 <= i < |ran| - 1 ==> !Stops(ran[i], c))
    && (|ran| < |functions| ==> ran != [] && Stops(ran[|ran| - 1], c))
  }

  /** Exactly the layers before the first stopping one run, and it runs too. */
  lemma {:induction false} RanIsPrefix(layers: seq<Layer>, c: Call)
    ensures var r := Ran(layers, c);
      && r <= Functions(layers)
      && (forall i :: 0 <= i < |r| - 1 ==> !Stops(r[i], c))
      && (|r| < |Functions(layers)| ==> r != [] && Stops(r[|r| - 1], c))
  {
    assert StopsAtEnd(Ran(layers, c), Functions(layers), c) by { RanStopsAtEnd(layers, c); }
  }

  lemma {:induction false} RanStopsAtEnd(layers: seq<Layer>, c: Call)
    ensures StopsAtEnd(Ran(layers, c), Functions(layers), c)
  {
    if layers != [] {
      RanStopsAtEnd(layers[1..], c);
    }
  }

  /** Did the layers that ran end with one that stops? */
  predicate Stopped(ran: seq<Layer>, c: Call) {
    ran != [] && Stops(ran[|ran| - 1], c)
  }

  lemma {:induction false} RanAppend(a: seq<Layer>, b: seq<Layer>, c: Call)
    ensures Ran(a + b, c) == if Stopped(Ran(a, c), c) then Ran(a, c) else Ran(a, c) + Ran(b, c)
  {
    if a == [] {
      assert a + b == b;
    } else {
      var rest := a[1..];
      assert (a + b)[1..] == rest + b;
      RanAppend(rest, b, c);
      if a[0] != NotAFunction && !Stops(a[0], c) {
        assert Ran(a, c) == [a[0]] + Ran(rest, c);
        assert Stopped(Ran(a, c), c) <==> Stopped(Ran(rest, c), c);
        Regroup([a[0]], Ran(rest, c), Ran(b, c));
        assert Ran(a + b, c) == [a[0]] + Ran(rest + b, c);
      }
    }
  }

  const DEFAULT_LAYERS := [Restore, Authorize, Invoke]

  /** A well-behaved extra layer releases the permit exactly when it halts. */
  predicate WellBehaved(l: Layer) {
    l == NotAFunction || (l.Extra? && l.leaves == (if l.halts && !l.throws then 1 else 0))
  }

  lemma {:induction false} ExtraLeaves(extra: seq<Layer>, c: Call)
    requires forall i :: 0 <= i < |extra| ==> WellBehaved(extra[i])
    ensures var r := Ran(extra, c);
      && (forall l :: l in r ==> WellBehaved(l))
      && TotalLeaves(r, c) == (if r != [] && Halts(r[|r| - 1], c) then 1 else 0)
  {
    if extra != [] {
      ExtraLeaves(extra[1..], c);
      var r, rest := Ran(extra, c), Ran(extra[1..], c);
      if extra[0] != NotAFunction {
        assert r[0] == extra[0];
        if Stops(extra[0], c) {
          assert r == [extra[0]];
        } else {
          assert r[1..] == rest;
          assert forall l :: l in r <==> l == extra[0] || l in rest;
        }
      }
    }
  }

  lemma {:induction false} TotalLeavesConcat(a: seq<Layer>, b: seq<Layer>, c: Call)
    ensures TotalLeaves(a + b, c) == TotalLeaves(a, c) + TotalLeaves(b, c)
  {
    if a == [] {
      assert a + b == b;
    } else {
      assert (a + b)[1..] == a[1..] + b;
      TotalLeavesConcat(a[1..], b, c);
    }
  }

  lemma RanStep(layer: Layer, rest: seq<Layer>, ran: seq<Layer>, c: Call)
    ensures ran + Ran([layer] + rest, c) ==
      if layer == NotAFunction then ran + Ran(rest, c)
      else if Stops(layer, c) then (ran + [layer]) + [] else (ran + [layer]) + Ran(rest, c)
  {
    assert ([layer] + rest)[1..] == rest;
  }

  predicate Quiet(w: Writes) {
    w == Writes(false, false, false, false, false)
  }

  /** Does the run of a chain end in an exception? */
  predicate ChainThrows(layers: seq<Layer>, c: Call) {
    var r := Ran(layers, c);
    r != [] && Throws(r[|r| - 1], c)
  }

  /** The access log is written however the chain ended, and asks proc() for the access once more. */
  predicate LogThrows(c: Call) {
    c.procThrows || c.writes.accessLog
  }

  /** Everything the chain and the surrounding catch release. */
  function Released(layers: seq<Layer>, c: Call): nat {
    TotalLeaves(Ran(layers, c), c) + if ChainThrows(layers, c) || LogThrows(c) then 1 else 0
  }

  lemma DefaultRan(c: Call)
    ensures Ran(DEFAULT_LAYERS, c) ==
      if Throws(Restore, c) then [Restore]
      else if Stops(Authorize, c) then [Restore, Authorize] else DEFAULT_LAYERS
    ensures TotalLeaves(Ran(DEFAULT_LAYERS, c), c) ==
      if Throws(Restore, c) then 0 else if Stops(Authorize, c) then Leaves(Authorize, c) else 1
  {
    var two, one := [Authorize, Invoke], [Invoke];
    assert DEFAULT_LAYERS[1..] == two && two[1..] == one && one[1..] == [];
    assert Ran(one, c) == [Invoke];
    assert Ran(two, c) == if Stops(Authorize, c) then [Authorize] else [Authorize] + [Invoke];
    assert Ran(DEFAULT_LAYERS, c) == if Stops(Restore, c) then [Restore] else [Restore] + Ran(two, c);
    LeavesOfThree(Ran(DEFAULT_LAYERS, c), c);
  }

  lemma LeavesOfThree(r: seq<Layer>, c: Call)
    requires r == [Restore] || r == [Restore, Authorize] || r == DEFAULT_LAYERS
    ensures TotalLeaves(r, c) ==
      (if |r| > 1 then Leaves(Authorize, c) else 0) + if |r| > 2 then Leaves(Invoke, c) else 0
  {
    assert TotalLeaves([], c) == 0;
    if |r| == 1 {
      assert r[1..] == [];
    } else if |r| == 2 {
      assert r[1..] == [Authorize] && r[1..][1..] == [];
    } else {
      assert r[1..] == [Authorize, Invoke] && r[1..][1..] == [Invoke] && r[1..][1..][1..] == [];
      assert TotalLeaves([Invoke], c) == Leaves(Invoke, c);
      assert TotalLeaves([Authorize, Invoke], c) == Leaves(Authorize, c) + TotalLeaves([Invoke], c);
    }
  }

  /** The layers an operator may put in front: anything but the three of the default chain. */
  predicate OnlyExtras(extra: seq<Layer>) {
    forall i :: 0 <= i < |extra| ==> extra[i] == NotAFunction || extra[i].Extra?
  }

  predicate Passes(l: Layer) {
    l.Extra? ==> !l.halts && !l.throws
  }

  /** Does an extra layer halt the call before any other one stops it? */
  predicate HaltedBy(extra: seq<Layer>) {
    extra != [] && ((extra[0].Extra? && extra[0].halts && !extra[0].throws) || (Passes(extra[0]) && HaltedBy(extra[1..])))
  }

  predicate AllPass(extra: seq<Layer>) {
    forall i :: 0 <= i < |extra| ==> Passes(extra[i])
  }

  /** Who may call: anybody a public method; else whoever has a session, with the permission where one
      is asked for, and passes the CSRF check. */
  predicate MayCall(c: Call) {
    c.access == Public || (c.hasSession && (c.access == Permission ==> c.permitted) && c.csrf == CsrfOk)
  }

  /** Does the call get through all layers to its method? */
  predicate ReachesMethod(extra: seq<Layer>, c: Call) {
    AllPass(extra) && !c.cookiesThrow && !c.procThrows && MayCall(c)
  }

  lemma {:induction false} EndOfExtras(extra: seq<Layer>, c: Call)
    requires OnlyExtras(extra)
    ensures Stopped(Ran(extra, c), c) <==> !AllPass(extra)
    ensures var r := Ran(extra, c); r != [] && Halts(r[|r| - 1], c) <==> HaltedBy(extra)
    ensures Invoke !in Ran(extra, c)
  {
    if extra != [] {
      EndOfExtras(extra[1..], c);
      assert forall i :: 0 < i < |extra| ==> extra[i] == extra[1..][i - 1];
      if extra[0] != NotAFunction && !Stops(extra[0], c) {
        assert Ran(extra, c) == [extra[0]] + Ran(extra[1..], c);
      }
    }
  }

  /** Access control: the method of a call runs if and only if no extra layer halts or throws, reading
      the cookies and proc() do not throw, and the caller may call it. */
  lemma InvokedIff(extra: seq<Layer>, c: Call)
    requires OnlyExtras(extra)
    ensures Invoke in Ran(extra + DEFAULT_LAYERS, c) <==>
      && (forall i :: 0 <= i < |extra| && extra[i].Extra? ==> !extra[i].halts && !extra[i].throws)
      && !c.cookiesThrow && !c.procThrows
      && (c.access == Public || (c.hasSession && (c.access == Permission ==> c.permitted) && c.csrf == CsrfOk))
  {
    RanAppend(extra, DEFAULT_LAYERS, c);
    EndOfExtras(extra, c);
    DefaultInvokes(c);
    var e, d := Ran(extra, c), Ran(DEFAULT_LAYERS, c);
    assert Invoke in e + d <==> Invoke in e || Invoke in d;
  }

  lemma DefaultInvokes(c: Call)
    ensures Invoke in Ran(DEFAULT_LAYERS, c) <==> !c.cookiesThrow && !c.procThrows && MayCall(c)
  {
    DefaultRan(c);
    assert Invoke !in [Restore] && Invoke !in [Restore, Authorize] && Invoke == DEFAULT_LAYERS[2];
  }

  /** When the permit is given back twice: the method runs and throws null or undefined, or an extra
      layer has released it and halted and proc() then throws in the access log. */
  predicate ReleasesTwice(extra: seq<Layer>, c: Call) {
    (ReachesMethod(extra, c) && c.ending == ThrowsNullish) || (HaltedBy(extra) && c.procThrows)
  }

  lemma DefaultReleases(c: Call)
    requires Quiet(c.writes)
    ensures Released(DEFAULT_LAYERS, c) == if ReachesMethod([], c) && c.ending == ThrowsNullish then 2 else 1
  {
    DefaultRan(c);
  }

  /** Extra layers that stop nothing leave the releases to the others. */
  lemma ExtrasPass(extra: seq<Layer>, c: Call)
    requires !Stopped(Ran(extra, c), c) && TotalLeaves(Ran(extra, c), c) == 0
    ensures Released(extra + DEFAULT_LAYERS, c) == Released(DEFAULT_LAYERS, c)
  {
    var e, d := Ran(extra, c), Ran(DEFAULT_LAYERS, c);
    RanAppend(extra, DEFAULT_LAYERS, c);
    DefaultRan(c);
    assert d != [] && (e + d)[|e + d| - 1] == d[|d| - 1];
    TotalLeavesConcat(e, d, c);
  }

  /** The chain behind any well-behaved extra layers, with writes that do not throw, releases the
      permit once, or twice in exactly those cases. */
  lemma ChainReleases(extra: seq<Layer>, c: Call)
    requires Quiet(c.writes) && forall i :: 0 <= i < |extra| ==> WellBehaved(extra[i])
    ensures Released(extra + DEFAULT_LAYERS, c) == if ReleasesTwice(extra, c) then 2 else 1
  {
    var e := Ran(extra, c);
    ExtraLeaves(extra, c);
    EndOfExtras(extra, c);
    if Stopped(e, c) {
      RanAppend(extra, DEFAULT_LAYERS, c);
    } else {
      assert !HaltedBy(extra);
      ExtrasPass(extra, c);
      DefaultReleases(c);
    }
  }

  /** Does the call get as far as running the layer chain? */
  predicate RunsChain(c: Call) {
    c.wellFormed && c.methodIsText && c.found && !c.contextThrows
  }

  /** Permits released minus permits taken by one call. */
  function NetPermits(layers: seq<Layer>, c: Call): int {
    if !c.isPacket || !c.admitted then 0
    else if !c.wellFormed || (c.methodIsText && !c.found) then if c.writes.error then 1 else 0
    else if !RunsChain(c) then 0
    else Released(layers, c) - 1
  }

  /** With writes that do not throw and well-behaved extra layers, a call gives back exactly the
      permit it took if and only if neither case of a double release is met; then it gives back one
      too many. */
  lemma PermitBalanceIff(extra: seq<Layer>, c: Call)
    requires Quiet(c.writes) && forall i :: 0 <= i < |extra| ==> WellBehaved(extra[i])
    ensures var layers := extra + DEFAULT_LAYERS;
      && 0 <= NetPermits(layers, c) <= 1
      && (NetPermits(layers, c) == 0 <==> !(c.isPacket && c.admitted && RunsChain(c) && ReleasesTwice(extra, c)))
  {
    ChainReleases(extra, c);
  }

  const NO_FAILURES := Writes(false, false, false, false, false)
  const PLAIN_CALL := Call(true, true, true, true, true, false, false, true, false, Public, true, CsrfOk, Returns, NO_FAILURES)

  /** Both cases happen: a public method that throws null, and a halting layer in front of a proc()
      that throws. */
  lemma DoubleReleasesHappen()
    ensures NetPermits(DEFAULT_LAYERS, PLAIN_CALL) == 0
    ensures NetPermits(DEFAULT_LAYERS, PLAIN_CALL.(ending := ThrowsNullish)) == 1
    ensures NetPermits([Extra(1, true, false)] + DEFAULT_LAYERS, PLAIN_CALL.(procThrows := true)) == 1
  {
    var extra := [Extra(1, true, false)];
    assert [] + DEFAULT_LAYERS == DEFAULT_LAYERS;
    PermitBalanceIff([], PLAIN_CALL);
    PermitBalanceIff([], PLAIN_CALL.(ending := ThrowsNullish));
    assert Halts(extra[0], PLAIN_CALL.(procThrows := true));
    PermitBalanceIff(extra, PLAIN_CALL.(procThrows := true));
  }

  /** Something throws although the permit has already been given back: the answer to a malformed call
      or an unknown method; the answer to a refused call, clearing its cookies, or its access log; or,
      for a call that is let through, what the catch block of invoke does, or the access log. */
  predicate ThrowsAfterRelease(c: Call) {
    var w := c.writes;
    if !c.wellFormed then w.error
    else if !c.methodIsText then false
    else if !c.found then w.error
    else if c.contextThrows || c.cookiesThrow || c.procThrows then false
    else if c.access != Public && !c.hasSession then w.error || w.clearCookies || w.accessLog
    else if c.access == Permission && !c.permitted then w.error || w.accessLog
    else if c.access != Public && c.csrf == CsrfThrows then false
    else if c.access != Public && c.csrf == CsrfBad then w.error || w.accessLog
    else
      w.accessLog || w.timingLog || c.ending == ThrowsNullish
      || (w.error && (c.ending == ThrowsError || c.ending == ReturnsError || (c.ending == Returns && w.send)))
  }

  /** The default chain under any failing writes: the permit comes back exactly once if and only
      if nothing throws after its release. */
  lemma DefaultBalanceIff(c: Call)
    ensures NetPermits(DEFAULT_LAYERS, c) == 0 <==> !(c.isPacket && c.admitted && ThrowsAfterRelease(c))
    ensures 0 <= NetPermits(DEFAULT_LAYERS, c) <= 1
  {
    DefaultRan(c);
  }

  /** How a call ends for its caller. */
  datatype End = Rejected | Done | Threw

  /** The server side of calls: the number of free permits and the chain all calls run. */
  class Server {
    var permits: int
    const chain: List<Layer>

    /** Built with the extra layers in front of the default ones. */
    constructor (permits: int, extra: List<Layer>)
      requires WellFormed(extra)
      ensures this.permits == permits && View(chain) == View(extra) + DEFAULT_LAYERS
    {
      var default_ := FromArray(DEFAULT_LAYERS);
      var merged := Merge([extra, default_]);
      assert [extra, default_][1..] == [default_] && [default_][1..] == [];
      assert Joined([default_]) == View(default_) + Joined([]);
      this.permits, this.chain := permits, merged;
    }

    /** authorize: refuse and release, or let the call through. */
    method RunAuthorize(c: Call) returns (halted: bool, threw: bool)
      modifies this
      ensures permits == old(permits) + Leaves(Authorize, c)
      ensures halted == Halts(Authorize, c) && threw == Throws(Authorize, c)
    {
      if c.procThrows { return false, true; }
      if c.access == Public { return false, false; }
      if !c.hasSession {
        permits := permits + 1;
        return !(c.writes.clearCookies || c.writes.error), c.writes.clearCookies || c.writes.error;
      }
      if c.access == Permission && !c.permitted {
        permits := permits + 1;
        return !c.writes.error, c.writes.error;
      }
      if c.csrf == CsrfThrows { return false, true; }
      if c.csrf == CsrfBad {
        permits := permits + 1;
        return !c.writes.error, c.writes.error;
      }
      return false, false;
    }

    /** invoke: run the method, answer, and release whatever happened. */
    method RunInvoke(c: Call) returns (threw: bool)
      modifies this
      ensures permits == old(permits) + 1 && threw == InvokeThrows(c)
    {
      var caught := true;
      if c.ending == Returns || c.ending == ReturnsError {
        caught := c.writes.timingLog || (if c.ending == ReturnsError then c.writes.error else c.writes.send);
      }
      threw := caught && (c.writes.timingLog || c.ending == ThrowsNullish || c.writes.error);
      permits := permits + 1;
    }

    /** One layer of the chain, whichever it is. */
    method RunLayer(layer: Layer, c: Call) returns (halted: bool, threw: bool)
      modifies this
      ensures permits == old(permits) + Leaves(layer, c)
      ensures halted == Halts(layer, c) && threw == Throws(layer, c)
    {
      halted, threw := false, false;
      match layer {
        case NotAFunction =>
        case Extra(leaves, halts, throws) =>
          permits := permits + leaves;
          halted, threw := halts && !throws, throws;
        case Restore => threw := c.cookiesThrow;
        case Authorize => halted, threw := RunAuthorize(c);
        case Invoke => threw := RunInvoke(c);
      }
    }

    /** runChain: call after call until one halts or throws; what is no function is skipped. */
    method RunChain(c: Call) returns (ghost ran: seq<Layer>, threw: bool)
      modifies this
      ensures ran == Ran(View(chain), c) && permits == old(permits) + TotalLeaves(ran, c)
      ensures threw <==> ChainThrows(View(chain), c)
    {
      ran, threw := [], false;
      var current, halted := chain, false;
      ghost var all := Ran(View(chain), c);
      while current.Cell? && !halted && !threw
        invariant all == ran + if halted || threw then [] else Ran(View(current), c)
        invariant threw <==> ran != [] && Throws(ran[|ran| - 1], c)
        invariant permits == old(permits) + TotalLeaves(ran, c)
        decreases current, !halted && !threw
      {
        var layer := current.value;
        RanStep(layer, View(current.next), ran, c);
        TotalLeavesConcat(ran, [layer], c);
        assert [layer][1..] == [];
        current := current.next;
        if layer == NotAFunction { continue; }
        halted, threw := RunLayer(layer, c);
        ran := ran + [layer];
      }
      assert ran + [] == ran;
    }

    /** rpc: take a permit, check the packet, run the chain; an exception releases once more. */
    method Rpc(c: Call) returns (end: End)
      modifies this
      ensures permits == old(permits) + NetPermits(View(chain), c)
      ensures end == Rejected <==> (!c.isPacket || !c.admitted) && !c.writes.error
      ensures end == Threw <==>
        if !c.isPacket || !c.admitted || !c.wellFormed || (c.methodIsText && !c.found) then c.writes.error
        else !c.methodIsText || c.contextThrows || ChainThrows(View(chain), c) || c.procThrows || c.writes.accessLog
      ensures !c.isPacket || !c.admitted ==> permits == old(permits)
    {
      if !c.isPacket { return if c.writes.error then Threw else Rejected; }
      if !c.admitted { return if c.writes.error then Threw else Rejected; }
      permits := permits - 1;
      var threw := false;
      if !c.wellFormed {
        permits := permits + 1;
        threw := c.writes.error;
      } else if !c.methodIsText {
        threw := true;
      } else if !c.found {
        permits := permits + 1;
        threw := c.writes.error;
      } else if c.contextThrows {
        threw := true;
      } else {
        ghost var ran;
        ran, threw := RunChain(c);
        var logThrew := c.procThrows || c.writes.accessLog;
        threw := threw || logThrew;
      }
      if threw { permits := permits + 1; }
      return if threw then Threw else Done;
    }
  }
}
