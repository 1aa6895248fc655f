/**
 * The per-connection state machine that `HttpClient.waitAll` drives, as a transition
 * function over abstract socket events. The real selector, socket calls and response
 * parser are replaced by the events' parameters: whether a connect or a write threw, how
 * many bytes a write could hand to the socket, how many bytes a read returned, and what
 * `HttpResponse.parse` answered on the bytes of that read.
 */
module Connection {
  import opened Wrappers
  import opened Text
  import opened Request

  /** `HttpStateType`. */
  datatype StateType = NotConnected | Connected | HeaderSent | EntitySent | HeaderReceived

  /** The interest set of a channel's selection key. */
  datatype Interest = OpConnect | OpWrite | OpRead

  /** What the client reads of an `HttpResponse`; the response parser is not part of this model. */
  datatype Response = Response(status: int, headers: map<string, seq<string>>)

  /** `HttpResponseParserResult`: OK with the response and the count of body bytes after it, or PARTIAL. */
  datatype ParseOutcome = ParsedOk(response: Response, remains: nat) | Partial

  /** A readiness event the selector reports for one key. */
  datatype Event =
    | Connectable(connected: bool)              // finishConnect returned (true) or threw (false)
    | Writable(room: nat, ok: bool)             // the socket accepts up to `room` bytes; write threw unless ok
    | Readable(n: int, outcome: ParseOutcome)   // read returned n; what parse answers on this read's bytes
    | ReadFailed                                // read threw

  /** A call on the connection's `HttpHandler`. */
  datatype Call = OnHeader(response: Response) | OnBody(size: nat)

  /** What a connection sends: the ASCII preamble, then the body if the request has one. */
  datatype Exchange = Exchange(preamble: seq<byte>, content: Option<seq<byte>>)

  /**
   * One connection as `waitAll` sees it: the attached `HttpState` (state, read, handler calls),
   * the key's interest, whether the socket is open, whether it is in `channels`, the request's
   * body-write counter and the bytes the socket has accepted so far.
   */
  datatype Conn = Conn(
    state: StateType,
    interest: Interest,
    open: bool,
    live: bool,
    read: int,
    wrote: nat,
    wire: seq<byte>,
    calls: seq<Call>)

  /** The connection that `request` registers. */
  function Initial(): Conn {
    Conn(NotConnected, OpConnect, true, true, 0, 0, [], [])
  }

  function KindOf(ev: Event): Interest {
    match ev
    case Connectable(_) => OpConnect
    case Writable(_, _) => OpWrite
    case Readable(_, _) => OpRead
    case ReadFailed => OpRead
  }

  /** The selector reports only open channels, and only for the operation their key is interested in. */
  predicate Enabled(c: Conn, ev: Event) {
    c.open && KindOf(ev) == c.interest
  }

  function BodyBytes(x: Exchange): seq<byte> {
    match x.content
    case None => []
    case Some(b) => b
  }

  /** The body of one iteration of `waitAll`'s inner loop, for the key of connection `c`. */
  function Next(x: Exchange, c: Conn, ev: Event): Conn {
    if !Enabled(c, ev) then c
    else
      match ev
      case Connectable(connected) =>
        if connected then c.(state := Connected, interest := OpWrite)
        else c.(open := false)
      case Writable(room, ok) =>
        if !ok then c.(open := false)
        else if c.state == Connected then
          c.(state := HeaderSent, wire := c.wire + x.preamble[..Min(room, |x.preamble|)])
        else
          var (w, more) := EntityWrite(x.content, c.wrote, room);
          var sent := if c.wrote <= w <= |BodyBytes(x)| then BodyBytes(x)[c.wrote..w] else [];
          var c' := c.(wrote := w, wire := c.wire + sent);
          if more then c' else c'.(state := EntitySent, interest := OpRead)
      case Readable(n, outcome) =>
        if n <= 0 then c.(open := false, live := false)
        else if c.state == EntitySent then
          match outcome
          case Partial => c
          case ParsedOk(response, remains) =>
            c.(state := HeaderReceived, read := c.read + remains,
               calls := c.calls + [OnHeader(response), OnBody(remains)])
        // after the header: `onBody` gets the n bytes read, the handler taken not to move the buffer's position
        else c.(read := c.read + n, calls := c.calls + [OnBody(n)])
      case ReadFailed => c
  }

  /** The connection after the events `evs`, in order. */
  function Run(x: Exchange, c: Conn, evs: seq<Event>): Conn
    decreases |evs|
  {
    if evs == [] then c else Run(x, Next(x, c, evs[0]), evs[1..])
  }

  // ---------------------------------------------------------------- the invariant

  function Rank(s: StateType): nat {
    match s
    case NotConnected => 0
    case Connected => 1
    case HeaderSent => 2
    case EntitySent => 3
    case HeaderReceived => 4
  }

  /** The key's interest in each state. */
  function InterestFor(s: StateType): Interest {
    match s
    case NotConnected => OpConnect
    case Connected => OpWrite
    case HeaderSent => OpWrite
    case EntitySent => OpRead
    case HeaderReceived => OpRead
  }

  function BodyTotal(calls: seq<Call>): int {
    if calls == [] then 0
    else BodyTotal(calls[..|calls| - 1]) + (match calls[|calls| - 1] case OnBody(k) => k case OnHeader(_) => 0)
  }

  /** The handler sees one `onHeader` first and only `onBody` calls after it. */
  predicate HeaderFirst(calls: seq<Call>) {
    |calls| > 0 && calls[0].OnHeader? && forall i :: 1 <= i < |calls| ==> calls[i].OnBody?
  }

  /**
   * What holds of every connection from `request` on: the interest matches the state; the
   * body counter stays within the body; `read` is the total handed to `onBody`; no handler
   * call before the header is parsed and the header call first after; a channel leaves
   * `channels` only closed; and the socket has been given nothing before the preamble write,
   * afterwards a prefix of the preamble followed by exactly the body bytes counted so far.
   */
  ghost predicate Inv(x: Exchange, c: Conn) {
    c.interest == InterestFor(c.state) &&
    c.wrote <= |BodyBytes(x)| &&
    c.read == BodyTotal(c.calls) &&
    (c.state != HeaderReceived ==> c.calls == []) &&
    (c.state == HeaderReceived ==> HeaderFirst(c.calls)) &&
    (!c.live ==> !c.open) &&
    (Rank(c.state) <= 1 ==> c.wire == [] && c.wrote == 0) &&
    (Rank(c.state) >= 2 ==>
      c.wrote <= |c.wire| && |c.wire| - c.wrote <= |x.preamble| &&
      c.wire == x.preamble[..|c.wire| - c.wrote] + BodyBytes(x)[..c.wrote]) &&
    (Rank(c.state) >= 3 ==> c.wrote == |BodyBytes(x)|)
  }

  lemma InitialInv(x: Exchange)
    ensures Inv(x, Initial())
  {
  }

  lemma BodyTotalSnoc(calls: seq<Call>, k: Call)
    ensures BodyTotal(calls + [k]) == BodyTotal(calls) + (match k case OnBody(n) => n case OnHeader(_) => 0)
  {
    assert (calls + [k])[..|calls|] == calls;
  }

  /** Every transition keeps the invariant. */
  lemma NextInv(x: Exchange, c: Conn, ev: Event)
    requires Inv(x, c)
    ensures Inv(x, Next(x, c, ev))
  {
    if Enabled(c, ev) {
      match ev
      case Connectable(connected) =>
        ConnectStepInv(x, c, connected);
      case Writable(room, ok) =>
        if !ok {
          CloseStepInv(x, c, ev);
        } else if c.state == Connected {
          HeaderStepInv(x, c, room);
        } else {
          EntityStepInv(x, c, room);
        }
      case Readable(n, outcome) =>
        if n > 0 {
          ReadStepInv(x, c, n, outcome);
        } else {
          CloseStepInv(x, c, ev);
        }
      case ReadFailed =>
    }
  }

  lemma ConnectStepInv(x: Exchange, c: Conn, connected: bool)
    requires Inv(x, c) && Enabled(c, Connectable(connected))
    ensures Inv(x, Next(x, c, Connectable(connected)))
  {
  }

  /** A failed write, or a read of no bytes, only closes the socket (and the read also drops it). */
  lemma CloseStepInv(x: Exchange, c: Conn, ev: Event)
    requires Inv(x, c) && Enabled(c, ev)
    requires (ev.Writable? && !ev.ok) || (ev.Readable? && ev.n <= 0)
    ensures Inv(x, Next(x, c, ev))
  {
  }

  lemma HeaderStepInv(x: Exchange, c: Conn, room: nat)
    requires Inv(x, c) && Enabled(c, Writable(room, true)) && c.state == Connected
    ensures Inv(x, Next(x, c, Writable(room, true)))
  {
  }

  lemma EntityStepInv(x: Exchange, c: Conn, room: nat)
    requires Inv(x, c) && Enabled(c, Writable(room, true)) && c.state != Connected
    ensures Inv(x, Next(x, c, Writable(room, true)))
  {
    var c' := Next(x, c, Writable(room, true));
    var b := BodyBytes(x);
    var w := c'.wrote;
    assert c.state == HeaderSent;
    assert w == EntityWrite(x.content, c.wrote, room).0;
    assert c.wrote <= w <= |b|;
    assert c'.wire == c.wire + b[c.wrote..w];
    WireExtends(x.preamble[..|c.wire| - c.wrote], b, c.wrote, w);
  }

  /** A prefix of the preamble and of the body, extended by the next body bytes. */
  lemma WireExtends(p: seq<byte>, b: seq<byte>, i: nat, j: nat)
    requires i <= j <= |b|
    ensures p + b[..i] + b[i..j] == p + b[..j]
  {
    assert b[..i] + b[i..j] == b[..j];
  }

  lemma ReadStepInv(x: Exchange, c: Conn, n: int, outcome: ParseOutcome)
    requires Inv(x, c) && Enabled(c, Readable(n, outcome)) && n > 0
    ensures Inv(x, Next(x, c, Readable(n, outcome)))
  {
    if c.state != EntitySent {
      BodyStepInv(x, c, n);
    } else if outcome.ParsedOk? {
      ParsedStepInv(x, c, outcome.response, outcome.remains);
    }
  }

  /** The header parsed: the handler gets `onHeader`, then `onBody` with what followed it. */
  lemma ParsedStepInv(x: Exchange, c: Conn, response: Response, remains: nat)
    requires Inv(x, c) && c.state == EntitySent
    ensures Inv(x, c.(state := HeaderReceived, read := c.read + remains,
                       calls := c.calls + [OnHeader(response), OnBody(remains)]))
  {
    var hd := OnHeader(response);
    BodyTotalSnoc([], hd);
    BodyTotalSnoc([hd], OnBody(remains));
    assert c.calls + [hd, OnBody(remains)] == [hd] + [OnBody(remains)];
  }

  /** A read after the header: its bytes go to `onBody` and into `read`. */
  lemma BodyStepInv(x: Exchange, c: Conn, n: nat)
    requires Inv(x, c) && c.interest == OpRead && c.state != EntitySent
    ensures Inv(x, c.(read := c.read + n, calls := c.calls + [OnBody(n)]))
  {
    assert c.state == HeaderReceived;
    BodyTotalSnoc(c.calls, OnBody(n));
    var calls := c.calls + [OnBody(n)];
    forall i | 1 <= i < |calls| ensures calls[i].OnBody? {
      if i < |c.calls| { assert calls[i] == c.calls[i]; }
    }
  }

  /** Every sequence of events keeps the invariant. */
  lemma {:induction false} RunInv(x: Exchange, c: Conn, evs: seq<Event>)
    requires Inv(x, c)
    ensures Inv(x, Run(x, c, evs))
    decreases |evs|
  {
    if evs != [] {
      NextInv(x, c, evs[0]);
      RunInv(x, Next(x, c, evs[0]), evs[1..]);
    }
  }

  /** Running one more event is one more step from where the earlier events led. */
  lemma {:induction false} RunSnoc(x: Exchange, c: Conn, evs: seq<Event>, ev: Event)
    ensures Run(x, c, evs + [ev]) == Next(x, Run(x, c, evs), ev)
    decreases |evs|
  {
    if evs == [] {
      assert evs + [ev] == [ev];
    } else {
      assert (evs + [ev])[0] == evs[0];
      assert (evs + [ev])[1..] == evs[1..] + [ev];
      RunSnoc(x, Next(x, c, evs[0]), evs[1..], ev);
    }
  }

  // ---------------------------------------------------------------- single steps

  /** The state never moves backwards. */
  lemma NextMonotone(x: Exchange, c: Conn, ev: Event)
    requires Inv(x, c)
    ensures Rank(Next(x, c, ev).state) >= Rank(c.state)
    ensures Rank(Next(x, c, ev).state) <= Rank(c.state) + 1
  {
  }

  /**
   * The write phase: a successful connect moves NOT_CONNECTED to CONNECTED with interest WRITE;
   * the first writable event writes the preamble once, whatever part of it the socket accepts,
   * and moves to HEADER_SENT; later writable events move to ENTITY_SENT with interest READ as
   * soon as `writeEntity` reports "finished". A failed connect or write closes the socket only.
   */
  lemma WritePhase(x: Exchange, c: Conn, ev: Event)
    requires Inv(x, c) && Enabled(c, ev)
    ensures ev == Connectable(true) ==> Next(x, c, ev).state == Connected && Next(x, c, ev).interest == OpWrite
    ensures ev.Writable? && ev.ok && c.state == Connected ==>
      var c' := Next(x, c, ev);
      c'.state == HeaderSent && c'.interest == OpWrite &&
      c'.wire == x.preamble[..Min(ev.room, |x.preamble|)]
    ensures ev.Writable? && ev.ok && c.state == HeaderSent ==>
      var c' := Next(x, c, ev);
      var (w, more) := EntityWrite(x.content, c.wrote, ev.room);
      c'.wrote == w &&
      (more ==> c'.state == HeaderSent && c'.interest == OpWrite) &&
      (!more ==> c'.state == EntitySent && c'.interest == OpRead)
    ensures (ev == Connectable(false) || (ev.Writable? && !ev.ok)) ==>
      Next(x, c, ev) == c.(open := false)
  {
  }

  /**
   * The read phase: in ENTITY_SENT a parsed header moves to HEADER_RECEIVED and calls
   * `onHeader` before `onBody` of the bytes left over, adding them to `read`; PARTIAL
   * changes nothing; in HEADER_RECEIVED each read of n > 0 bytes goes to `onBody` and adds n
   * to `read`; a read of n <= 0 closes the channel and removes it from `channels`.
   */
  lemma ReadPhase(x: Exchange, c: Conn, n: int, outcome: ParseOutcome)
    requires Inv(x, c) && Enabled(c, Readable(n, outcome))
    ensures var c' := Next(x, c, Readable(n, outcome));
      (n <= 0 ==> !c'.open && !c'.live && c'.calls == c.calls) &&
      (n > 0 && c.state == EntitySent && outcome.Partial? ==> c' == c) &&
      (n > 0 && c.state == EntitySent && outcome.ParsedOk? ==>
         c'.state == HeaderReceived &&
         c'.calls == [OnHeader(outcome.response), OnBody(outcome.remains)] &&
         c'.read == c.read + outcome.remains) &&
      (n > 0 && c.state == HeaderReceived ==>
         c'.state == HeaderReceived && c'.calls == c.calls + [OnBody(n)] && c'.read == c.read + n)
  {
  }

  /** The only way out of `channels` is a read that returns n <= 0 (end of stream, or no room left in the buffer). */
  lemma OnlyEmptyReadRemoves(x: Exchange, c: Conn, ev: Event)
    requires c.live && !Next(x, c, ev).live
    ensures Enabled(c, ev) && ev.Readable? && ev.n <= 0
  {
  }

  /** A closed channel is never reported again: no event changes it. */
  lemma ClosedIsInert(x: Exchange, c: Conn, ev: Event)
    requires !c.open
    ensures Next(x, c, ev) == c
  {
  }

  /**
   * A channel closed by a failed connect or write stays in `channels` whatever happens
   * afterwards, so `waitAll`, which loops until `channels` is empty, never returns.
   */
  lemma {:induction false} ClosedStaysLive(x: Exchange, c: Conn, evs: seq<Event>)
    requires !c.open
    ensures Run(x, c, evs) == c
    decreases |evs|
  {
    if evs != [] {
      ClosedIsInert(x, c, evs[0]);
      ClosedStaysLive(x, c, evs[1..]);
    }
  }

  // ---------------------------------------------------------------- whole exchanges

  /**
   * A GET has no body: connect, one writable event for the preamble and one more for
   * `writeEntity` reach ENTITY_SENT, interested in reading, whatever the socket accepted.
   */
  lemma GetReachesEntitySent(preamble: seq<byte>, r1: nat, r2: nat)
    ensures var x := Exchange(preamble, None);
      var c := Run(x, Initial(), [Connectable(true), Writable(r1, true), Writable(r2, true)]);
      c.state == EntitySent && c.interest == OpRead && c.open && c.live &&
      c.wire == preamble[..Min(r1, |preamble|)]
  {
    var x := Exchange(preamble, None);
    var evs := [Connectable(true), Writable(r1, true), Writable(r2, true)];
    var c1 := Next(x, Initial(), evs[0]);
    var c2 := Next(x, c1, evs[1]);
    var c3 := Next(x, c2, evs[2]);
    assert Run(x, c3, []) == c3;
    assert evs[1..][1..][1..] == [];
    assert Run(x, Initial(), evs) == Run(x, c1, evs[1..]);
    assert Run(x, c1, evs[1..]) == Run(x, c2, evs[1..][1..]);
  }

  function Writes(k: nat, m: nat): (evs: seq<Event>)
    ensures |evs| == m
  {
    if m == 0 then [] else [Writable(k, true)] + Writes(k, m - 1)
  }

  /**
   * Partial writes: once the preamble is out, a body goes out completely, with no byte
   * repeated or skipped, through any number of writable events that each accept up to
   * k > 0 bytes, as long as there are enough of them; the connection then waits for the
   * response.
   */
  lemma {:induction false} BodyDrains(x: Exchange, c: Conn, k: nat, m: nat)
    requires Inv(x, c) && c.open && c.state == HeaderSent
    requires k > 0 && m >= 1 && |BodyBytes(x)| - c.wrote <= m * k
    ensures var c' := Run(x, c, Writes(k, m));
      c'.state == EntitySent && c'.interest == OpRead && c'.open &&
      c'.wrote == |BodyBytes(x)| &&
      c'.wire == c.wire + BodyBytes(x)[c.wrote..]
    decreases m
  {
    var b := BodyBytes(x);
    var c1 := Next(x, c, Writable(k, true));
    FirstWrite(x, c, k);
    RunWrites(x, c, k, m);
    var w := c1.wrote;
    if w == |b| {
      ReadingIgnoresWrites(x, c1, k, m - 1);
    } else {
      assert w == c.wrote + k;
      assert |b| - w <= (m - 1) * k;
      BodyDrains(x, c1, k, m - 1);
      assert b[c.wrote..w] + b[w..] == b[c.wrote..];
      ConcatAssoc(c.wire, b[c.wrote..w], b[w..]);
    }
  }

  /** One writable event while the body goes out: up to k more body bytes go on the wire, in order. */
  lemma FirstWrite(x: Exchange, c: Conn, k: nat)
    requires Inv(x, c) && c.open && c.state == HeaderSent
    ensures var c1 := Next(x, c, Writable(k, true));
      var b := BodyBytes(x);
      c1.open && c.wrote <= c1.wrote <= |b| &&
      c1.wrote == c.wrote + Min(k, |b| - c.wrote) &&
      c1.wire == c.wire + b[c.wrote..c1.wrote] &&
      (c1.wrote == |b| ==> c1.state == EntitySent && c1.interest == OpRead) &&
      (c1.wrote < |b| ==> c1.state == HeaderSent && Inv(x, c1))
  {
    NextInv(x, c, Writable(k, true));
    if x.content.None? {
      assert BodyBytes(x)[c.wrote..c.wrote] == [];
    }
  }

  /** The first of m writable events, then the other m - 1. */
  lemma RunWrites(x: Exchange, c: Conn, k: nat, m: nat)
    requires m >= 1
    ensures Run(x, c, Writes(k, m)) == Run(x, Next(x, c, Writable(k, true)), Writes(k, m - 1))
  {
    assert Writes(k, m)[0] == Writable(k, true);
    assert Writes(k, m)[1..] == Writes(k, m - 1);
  }

  /** Once interested in reading, writable events are not reported. */
  lemma {:induction false} ReadingIgnoresWrites(x: Exchange, c: Conn, k: nat, m: nat)
    requires c.interest == OpRead
    ensures Run(x, c, Writes(k, m)) == c
    decreases m
  {
    if m > 0 {
      assert Writes(k, m)[0] == Writable(k, true);
      assert Writes(k, m)[1..] == Writes(k, m - 1);
      ReadingIgnoresWrites(x, c, k, m - 1);
    }
  }
}
