/**
 * `HttpState`, the socket channel with its selection key, and `HttpClient`: `request`
 * registers a connection, and `waitAll` hands each selected key to the transition of
 * `Connection.Next` until `channels` is empty. The selector's answers are given to
 * `WaitAll` as a list of batches of (channel, event) pairs.
 */
module Client {
  import opened Wrappers
  import opened Text
  import opened Headers
  import opened Request
  import opened Connection

  /** `HttpState`: the object attached to a connection's selection key. */
  class HttpState {
    var state: StateType
    var read: int
    /** The capacity of the receive `ByteBuffer`; its contents are not modelled. */
    const bufSize: nat
    const request: HttpRequest
    /** The calls made so far on the connection's `HttpHandler`. */
    var calls: seq<Call>

    constructor (request: HttpRequest)
      ensures this.request == request
      ensures state == NotConnected && read == 0 && bufSize == 1024 && calls == []
    {
      this.state := NotConnected;
      this.request := request;
      this.bufSize := 1024;
      this.read := 0;
      this.calls := [];
    }
  }

  /** A `SocketChannel` together with its `SelectionKey`: open or closed, the key's interest, the bytes written. */
  class Channel {
    var open: bool
    var interest: Interest
    var wire: seq<byte>
    const attachment: HttpState
    /** What the connection sends, fixed when it is opened: `Sends()` at that moment. */
    ghost const sends: Exchange

    constructor (attachment: HttpState)
      ensures this.attachment == attachment
      ensures open && interest == OpConnect && wire == []
      ensures sends == Sends()
    {
      this.attachment := attachment;
      this.open := true;
      this.interest := OpConnect;
      this.wire := [];
      var r := attachment.request;
      this.sends := Exchange(AsciiBytes(Preamble(r.httpMethod, r.uri.rawPath, r.headers.Value())), r.content);
    }

    /** The request is consistent and its headers still render the preamble being sent. */
    ghost predicate Valid()
      reads this, attachment, attachment.request, attachment.request.headers
    {
      attachment.request.Valid() && sends == Sends()
    }

    /** A live connection: its request is consistent and its state one that `Connection.Inv` allows. */
    ghost predicate Healthy()
      reads this, attachment, attachment.request, attachment.request.headers
    {
      Valid() && Inv(sends, View(true))
    }

    /** What this connection sends: the request's preamble in ASCII and its body. */
    function Sends(): Exchange
      reads attachment.request.headers
    {
      var r := attachment.request;
      Exchange(AsciiBytes(Preamble(r.httpMethod, r.uri.rawPath, r.headers.Value())), r.content)
    }

    /** The connection as the transition function sees it; `live` says whether it is in `channels`. */
    function View(live: bool): Conn
      reads this, attachment, attachment.request
    {
      Conn(attachment.state, interest, open, live, attachment.read, attachment.request.wroteBytes, wire,
           attachment.calls)
    }
  }

  /** A port `InetSocketAddress` accepts. */
  predicate PortInRange(p: int) {
    0 <= p <= 65535
  }

  class HttpClient {
    var channels: set<Channel>

    /**
     * Every live connection is in a state that `Connection.Inv` allows, and no two live
     * connections share their `HttpState` or their request's headers.
     */
    ghost predicate Valid()
      reads this, channels, set c | c in channels :: c.attachment,
        set c | c in channels :: c.attachment.request,
        set c | c in channels :: c.attachment.request.headers
    {
      (forall c :: c in channels ==> c.Healthy()) &&
      Distinct(channels)
    }

    constructor ()
      ensures Valid() && channels == {}
    {
      channels := {};
    }

    /**
     * `request(request, handler)`: adds `connection: close` to the request's headers, then
     * opens a channel to the request's host and port and registers it, interested in connecting,
     * with a fresh `HttpState`. An invalid scheme or a port out of range throws after the
     * header was added and before anything is registered.
     */
    method Request(request: HttpRequest) returns (r: Option<Channel>)
      requires Valid() && request.Valid() && request.wroteBytes == 0
      requires forall c :: c in channels ==> c.attachment.request.headers != request.headers
      modifies this, request.headers
      ensures Valid()
      ensures request.headers.Value() == Added(old(request.headers.Value()), "Connection", "close")
      ensures r.None? <==> request.Port().Failure? || !PortInRange(request.Port().value)
      ensures r.None? ==> channels == old(channels)
      ensures r.Some? ==>
        var ch := r.value;
        fresh(ch) && fresh(ch.attachment) && channels == old(channels) + {ch} &&
        ch.attachment.request == request && ch.attachment.bufSize == 1024 &&
        ch.View(true) == Initial()
    {
      CloseAfterResponse(request);
      var port := request.Port();
      if port.Failure? || !PortInRange(port.value) {
        r := None;
        return;
      }
      var ch := Register(request);
      r := Some(ch);
    }

    /** The first step of `request`: `connection: close` is added to this request's headers only. */
    method CloseAfterResponse(request: HttpRequest)
      requires Valid() && request.Valid()
      requires forall c :: c in channels ==> c.attachment.request.headers != request.headers
      modifies request.headers
      ensures Valid() && request.Valid()
      ensures request.headers.Value() == Added(old(request.headers.Value()), "Connection", "close")
    {
      label pre:
      var _ := request.headers.Add("Connection", "close");
      AllKept@pre(channels);
    }

    /** The rest of `request`: a new channel, interested in connecting, joins `channels`. */
    method Register(request: HttpRequest) returns (ch: Channel)
      requires Valid() && request.Valid() && request.wroteBytes == 0
      requires forall c :: c in channels ==> c.attachment.request.headers != request.headers
      modifies this
      ensures Valid()
      ensures fresh(ch) && fresh(ch.attachment) && channels == old(channels) + {ch}
      ensures ch.attachment.request == request && ch.attachment.bufSize == 1024 && ch.View(true) == Initial()
    {
      label pre:
      ch := Open(request);
      ghost var others := channels;
      channels := channels + {ch};
      AllKept@pre(others);
      forall c | c in others ensures c.attachment.request != request {
        assert c.attachment.request.headers != request.headers;
      }
      DistinctAdd(others, ch);
    }

    /** A new socket channel with a fresh `HttpState` holding `request` attached to its key. */
    static method Open(request: HttpRequest) returns (ch: Channel)
      requires request.Valid() && request.wroteBytes == 0
      ensures fresh(ch) && fresh(ch.attachment)
      ensures ch.attachment.request == request && ch.attachment.bufSize == 1024
      ensures ch.View(true) == Initial() && ch.Healthy()
    {
      var st := new HttpState(request);
      ch := new Channel(st);
      InitialInv(ch.sends);
    }

    /** `get(uri, handler)`: a GET request for `uri`, registered through `request`. */
    method Get(uri: Uri) returns (r: Option<Channel>)
      requires Valid()
      modifies this
      ensures Valid()
      ensures r.None? <==> GetPort(uri).Failure? || !PortInRange(GetPort(uri).value)
      ensures r.Some? ==>
        var ch := r.value;
        fresh(ch) && fresh(ch.attachment) && fresh(ch.attachment.request) &&
        channels == old(channels) + {ch} && ch.View(true) == Initial() &&
        ch.attachment.request.httpMethod == "GET" &&
        ch.attachment.request.headers.Value() == Added(Added(Empty(), "Host", uri.host), "Connection", "close")
    {
      var request := new HttpRequest("GET", uri);
      r := Request(request);
    }

    /** One iteration of the inner loop of `waitAll`: the selected key of `ch` with readiness `ev`. */
    method Dispatch(ch: Channel, ev: Event)
      requires ch.Valid()
      modifies this, ch, ch.attachment, ch.attachment.request
      ensures ch.Valid()
      ensures ch.View(ch in channels) == Next(ch.sends, old(ch.View(ch in channels)), ev)
      ensures channels == old(channels) || (channels == old(channels) - {ch} && !ch.open)
    {
      if !ch.open || KindOf(ev) != ch.interest {
        // the selector does not report this key
        return;
      }
      match ev
      case Connectable(connected) => OnConnectable(ch, connected);
      case Writable(room, ok) => OnWritable(ch, room, ok);
      case Readable(n, outcome) => OnReadable(ch, n, outcome);
      case ReadFailed =>
    }

    /** A connectable key: `finishConnect` either succeeds or throws and the channel is closed. */
    method OnConnectable(ch: Channel, connected: bool)
      requires ch.Valid() && ch.open && ch.interest == OpConnect
      modifies ch, ch.attachment
      ensures ch.Valid()
      ensures ch.View(ch in channels) == Next(ch.sends, old(ch.View(ch in channels)), Connectable(connected))
    {
      if connected {
        ch.attachment.state := Connected;
        ch.interest := OpWrite;
      } else {
        ch.open := false;
      }
    }

    /**
     * A writable key: in CONNECTED the preamble is written once, as far as the socket takes it;
     * otherwise `writeEntity` runs, and once it reports "finished" the key turns to reading.
     * A write that throws closes the channel.
     */
    method OnWritable(ch: Channel, room: nat, ok: bool)
      requires ch.Valid() && ch.open && ch.interest == OpWrite
      modifies ch, ch.attachment, ch.attachment.request
      ensures ch.Valid()
      ensures ch.View(ch in channels) == Next(ch.sends, old(ch.View(ch in channels)), Writable(room, ok))
    {
      var st := ch.attachment;
      var req := st.request;
      if !ok {
        ch.open := false;
      } else if st.state == Connected {
        var text := req.HeaderPartAsString();
        var src := AsciiBytes(text);
        ch.wire := ch.wire + src[..Min(room, |src|)];
        st.state := HeaderSent;
      } else {
        var before := req.wroteBytes;
        var more := req.WriteEntity(room);
        match req.content {
          case None =>
          case Some(bytes) => ch.wire := ch.wire + bytes[before..req.wroteBytes];
        }
        if !more {
          st.state := EntitySent;
          ch.interest := OpRead;
        }
      }
    }

    /**
     * A readable key: a read of no bytes closes the channel and drops it from `channels`; in
     * ENTITY_SENT the bytes go to the response parser, later ones straight to `onBody`.
     */
    method OnReadable(ch: Channel, n: int, outcome: ParseOutcome)
      requires ch.Valid() && ch.open && ch.interest == OpRead
      modifies this, ch, ch.attachment
      ensures ch.Valid()
      ensures ch.View(ch in channels) == Next(ch.sends, old(ch.View(ch in channels)), Readable(n, outcome))
      ensures channels == old(channels) || (channels == old(channels) - {ch} && !ch.open)
    {
      var st := ch.attachment;
      if n <= 0 {
        ch.open := false;
        channels := channels - {ch};
      } else if st.state == EntitySent {
        match outcome {
          case Partial =>
          case ParsedOk(response, remains) =>
            st.state := HeaderReceived;
            st.calls := st.calls + [OnHeader(response)];
            st.read := st.read + remains;
            st.calls := st.calls + [OnBody(remains)];
        }
      } else {
        st.read := st.read + n;
        st.calls := st.calls + [OnBody(n)];
      }
    }

    /** The connection of each channel in `all` as the transition function sees it. */
    ghost function Views(all: set<Channel>): map<Channel, Conn>
      reads this, all, set c | c in all :: c.attachment, set c | c in all :: c.attachment.request
    {
      map c | c in all :: c.View(c in channels)
    }

    /**
     * `waitAll()`: while `channels` is not empty, take the next batch of selected keys and
     * dispatch each. A channel dropped from `channels` was closed, so its key is cancelled and
     * never selected again. Returns the number of batches used; it stops early only when
     * `channels` has become empty. Each registered channel ends where `Connection.Run` takes
     * it over the events selected for it, in selection order.
     */
    method WaitAll(batches: seq<seq<(Channel, Event)>>) returns (rounds: nat)
      requires Valid()
      modifies this, channels, set c | c in channels :: c.attachment,
        set c | c in channels :: c.attachment.request
      ensures Valid()
      ensures rounds <= |batches|
      ensures channels == {} || rounds == |batches|
      ensures channels <= old(channels)
      ensures forall c :: c in old(channels) && c !in channels ==> !c.open
      ensures forall c :: c in old(channels) ==>
        c.View(c in channels) == Run(c.sends, old(c.View(true)), EventsOf(c, Flatten(batches[..rounds])))
    {
      ghost var all := channels;
      ghost var start := Views(all);
      assert Tracks(Views(all), start, []);
      rounds := SelectAll(all, start, batches);
    }

    /** The outer loop of `waitAll`: one batch of selected keys per round while a channel is left. */
    method SelectAll(ghost all: set<Channel>, ghost start: map<Channel, Conn>, batches: seq<seq<(Channel, Event)>>)
      returns (rounds: nat)
      requires Valid() && channels <= all && Distinct(all) && start.Keys == all
      requires forall c :: c in all && c !in channels ==> !c.open
      requires Tracks(Views(all), start, [])
      modifies this, all, set c | c in all :: c.attachment, set c | c in all :: c.attachment.request
      ensures Valid() && channels <= old(channels)
      ensures rounds <= |batches|
      ensures channels == {} || rounds == |batches|
      ensures forall c :: c in all && c !in channels ==> !c.open
      ensures Tracks(Views(all), start, Flatten(batches[..rounds]))
    {
      rounds := 0;
      while channels != {} && rounds < |batches|
        invariant rounds <= |batches|
        invariant Valid() && channels <= old(channels)
        invariant forall c :: c in all && c !in channels ==> !c.open
        invariant Tracks(Views(all), start, Flatten(batches[..rounds]))
        decreases |batches| - rounds
      {
        SelectBatch(all, start, Flatten(batches[..rounds]), batches[rounds]);
        FlattenSnoc(batches, rounds);
        rounds := rounds + 1;
      }
    }

    /** The inner loop of `waitAll`: each selected key of one batch in turn. */
    method SelectBatch(ghost all: set<Channel>, ghost start: map<Channel, Conn>, ghost done: seq<(Channel, Event)>,
                       keys: seq<(Channel, Event)>)
      requires Valid() && channels <= all && Distinct(all) && start.Keys == all
      requires forall c :: c in all && c !in channels ==> !c.open
      requires Tracks(Views(all), start, done)
      modifies this, all, set c | c in all :: c.attachment, set c | c in all :: c.attachment.request
      ensures Valid() && channels <= old(channels)
      ensures forall c :: c in all && c !in channels ==> !c.open
      ensures Tracks(Views(all), start, done + keys)
    {
      var j := 0;
      assert done + keys[..0] == done;
      while j < |keys|
        invariant j <= |keys|
        invariant Valid()
        invariant channels <= old(channels)
        invariant forall c :: c in all && c !in channels ==> !c.open
        invariant Tracks(Views(all), start, done + keys[..j])
      {
        var (ch, ev) := keys[j];
        if ch in channels {
          Advance(all, start, done + keys[..j], ch, ev);
        } else {
          SkipKey(all, start, done + keys[..j], ch, ev);
        }
        KeysSnoc(done, keys, j);
        j := j + 1;
      }
      assert keys[..j] == keys;
    }

    /** The key of a registered channel: it is dispatched, and it is one more event in that channel's run. */
    method Advance(ghost all: set<Channel>, ghost start: map<Channel, Conn>, ghost done: seq<(Channel, Event)>,
                   ch: Channel, ev: Event)
      requires Valid() && ch in channels && channels <= all && Distinct(all) && start.Keys == all
      requires forall c :: c in all && c !in channels ==> !c.open
      requires Tracks(Views(all), start, done)
      modifies this, ch, ch.attachment, ch.attachment.request
      ensures Valid()
      ensures channels <= old(channels)
      ensures forall c :: c in all && c !in channels ==> !c.open
      ensures Tracks(Views(all), start, done + [(ch, ev)])
    {
      ghost var views := Views(all);
      TracksSnoc(views, start, done, ch, ev);
      Step(all, ch, ev);
      ViewsUpdate(all, views, ch, Next(ch.sends, views[ch], ev));
    }

    /** The views after a step that moved `ch` to `v` and left every other channel of `all` as it was. */
    lemma ViewsUpdate(all: set<Channel>, views: map<Channel, Conn>, ch: Channel, v: Conn)
      requires ch in all && views.Keys == all
      requires ch.View(ch in channels) == v
      requires forall c :: c in all && c != ch ==> c.View(c in channels) == views[c]
      ensures Views(all) == views[ch := v]
    {
    }

    /**
     * The key of a channel no longer in `channels`: nothing is done, and since that channel
     * is closed, the event changes nothing in its run either.
     */
    lemma SkipKey(all: set<Channel>, start: map<Channel, Conn>, done: seq<(Channel, Event)>, ch: Channel, ev: Event)
      requires ch !in channels && start.Keys == all
      requires forall c :: c in all && c !in channels ==> !c.open
      requires Tracks(Views(all), start, done)
      ensures Tracks(Views(all), start, done + [(ch, ev)])
    {
      var views := Views(all);
      TracksSnoc(views, start, done, ch, ev);
      if ch in all {
        ClosedIsInert(ch.sends, views[ch], ev);
        assert views[ch := Next(ch.sends, views[ch], ev)] == views;
      }
    }

    /**
     * `Dispatch` on a registered channel keeps the client's invariant. The channel moves as
     * `Connection.Next` says and every other channel of `all` stays as it was; a channel
     * that leaves `channels` is closed.
     */
    method Step(ghost all: set<Channel>, ch: Channel, ev: Event)
      requires Valid() && ch in channels && channels <= all && Distinct(all)
      requires forall c :: c in all && c !in channels ==> !c.open
      modifies this, ch, ch.attachment, ch.attachment.request
      ensures Valid()
      ensures channels <= old(channels)
      ensures forall c :: c in all && c !in channels ==> !c.open
      ensures ch.View(ch in channels) == Next(ch.sends, old(ch.View(true)), ev)
      ensures forall c :: c in all && c != ch ==> c.View(c in channels) == old(c.View(c in channels))
    {
      NextInv(ch.sends, ch.View(true), ev);
      label pre:
      Move(all, ch, ev);
      forall c | c in channels && c != ch ensures c.Healthy() {
        assert c.attachment != ch.attachment && c.attachment.request != ch.attachment.request;
        Kept@pre(c);
      }
    }

    /** `Dispatch` as all channels of `all` see it: `ch` takes one step and the others stay as they were. */
    method Move(ghost all: set<Channel>, ch: Channel, ev: Event)
      requires ch.Valid() && ch in all && Distinct(all)
      modifies this, ch, ch.attachment, ch.attachment.request
      ensures ch.Valid()
      ensures ch.View(ch in channels) == Next(ch.sends, old(ch.View(ch in channels)), ev)
      ensures channels == old(channels) || (channels == old(channels) - {ch} && !ch.open)
      ensures forall c :: c in all && c != ch ==> c.View(c in channels) == old(c.View(c in channels))
    {
      Dispatch(ch, ev);
      forall c | c in all && c != ch ensures c.View(c in channels) == old(c.View(c in channels)) {
        assert c.attachment != ch.attachment && c.attachment.request != ch.attachment.request;
      }
    }
  }

  /** A channel whose own objects a step left untouched is as healthy and as open as before. */
  twostate lemma Kept(c: Channel)
    requires unchanged(c, c.attachment, c.attachment.request, c.attachment.request.headers)
    ensures old(c.Healthy()) ==> c.Healthy()
  {
  }

  /** Channels none of whose objects a step touched are as healthy as before. */
  twostate lemma AllKept(cs: set<Channel>)
    requires unchanged(cs) && unchanged(set c | c in cs :: c.attachment)
    requires unchanged(set c | c in cs :: c.attachment.request)
    requires unchanged(set c | c in cs :: c.attachment.request.headers)
    requires forall c :: c in cs ==> old(c.Healthy())
    ensures forall c :: c in cs ==> c.Healthy()
  {
    forall c | c in cs ensures c.Healthy() {
      Kept(c);
    }
  }

  /** No two of the channels share their `HttpState`, their request or their request's headers. */
  ghost predicate Distinct(cs: set<Channel>) {
    forall c, d :: c in cs && d in cs && c != d ==>
      c.attachment != d.attachment &&
      c.attachment.request != d.attachment.request &&
      c.attachment.request.headers != d.attachment.request.headers
  }

  lemma DistinctAdd(cs: set<Channel>, ch: Channel)
    requires Distinct(cs)
    requires forall c :: c in cs ==>
      c.attachment != ch.attachment &&
      c.attachment.request != ch.attachment.request &&
      c.attachment.request.headers != ch.attachment.request.headers
    ensures Distinct(cs + {ch})
  {
  }

  /** The events of the keys selected for channel `c`, in order. */
  ghost function EventsOf(c: Channel, keys: seq<(Channel, Event)>): seq<Event> {
    if keys == [] then []
    else EventsOf(c, keys[..|keys| - 1]) + (if keys[|keys| - 1].0 == c then [keys[|keys| - 1].1] else [])
  }

  /** The batches of selected keys, one after the other. */
  ghost function Flatten(batches: seq<seq<(Channel, Event)>>): seq<(Channel, Event)> {
    if batches == [] then [] else Flatten(batches[..|batches| - 1]) + batches[|batches| - 1]
  }

  /** Every channel of `start` is now where `Connection.Run` takes it over the keys `done` selected for it. */
  ghost predicate Tracks(views: map<Channel, Conn>, start: map<Channel, Conn>, done: seq<(Channel, Event)>) {
    forall c :: c in start ==> c in views && views[c] == Run(c.sends, start[c], EventsOf(c, done))
  }

  /** One more selected key moves its channel one `Connection.Next` step and no other channel. */
  lemma TracksSnoc(views: map<Channel, Conn>, start: map<Channel, Conn>, done: seq<(Channel, Event)>,
                   ch: Channel, ev: Event)
    requires Tracks(views, start, done)
    ensures Tracks(if ch in start then views[ch := Next(ch.sends, views[ch], ev)] else views,
                   start, done + [(ch, ev)])
  {
    var done' := done + [(ch, ev)];
    assert done'[..|done|] == done;
    var views' := if ch in start then views[ch := Next(ch.sends, views[ch], ev)] else views;
    forall c | c in start ensures c in views' && views'[c] == Run(c.sends, start[c], EventsOf(c, done')) {
      if c == ch {
        assert EventsOf(c, done') == EventsOf(c, done) + [ev];
        RunSnoc(c.sends, start[c], EventsOf(c, done), ev);
        assert views'[c] == Next(c.sends, views[c], ev);
      } else {
        assert EventsOf(c, done') == EventsOf(c, done) + [];
        assert EventsOf(c, done) + [] == EventsOf(c, done);
        assert views'[c] == views[c];
      }
    }
  }

  /** A channel none of whose keys is selected gets no events, so `WaitAll` leaves it as it was. */
  lemma {:induction false} EventsOfUnselected(c: Channel, keys: seq<(Channel, Event)>)
    requires forall i :: 0 <= i < |keys| ==> keys[i].0 != c
    ensures EventsOf(c, keys) == []
    decreases |keys|
  {
    if keys != [] {
      EventsOfUnselected(c, keys[..|keys| - 1]);
    }
  }

  /** Taking one more key of the current batch. */
  lemma KeysSnoc(before: seq<(Channel, Event)>, keys: seq<(Channel, Event)>, j: nat)
    requires j < |keys|
    ensures before + keys[..j + 1] == (before + keys[..j]) + [keys[j]]
  {
    assert keys[..j + 1] == keys[..j] + [keys[j]];
    ConcatAssoc(before, keys[..j], [keys[j]]);
  }

  /** Taking one more batch. */
  lemma FlattenSnoc(batches: seq<seq<(Channel, Event)>>, rounds: nat)
    requires rounds < |batches|
    ensures Flatten(batches[..rounds]) + batches[rounds] == Flatten(batches[..rounds + 1])
  {
    assert batches[..rounds + 1][..rounds] == batches[..rounds];
  }
}
