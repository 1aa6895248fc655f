/**
 * `HttpRequest` and `StringHttpRequest`: an HTTP/1.0 request whose preamble is the
 * request line, one line per header value and a blank line (the shape of section 5.1
 * of RFC 1945), followed by an optional body written to the socket in pieces.
 */
module Request {
  import opened Wrappers
  import opened Text
  import opened Headers

  /** The parts of a `java.net.URI` the client reads; `port` is -1 when the URI names none. */
  datatype Uri = Uri(scheme: string, host: string, port: int, rawPath: string)

  /** The default port of the http scheme (section 3.2.2 of RFC 1945). */
  const HttpPort := 80
  const HttpsPort := 443

  /** `getPort()`: an explicit port as given, else the scheme's default; other schemes throw. */
  function GetPort(uri: Uri): (r: Result<int>)
    ensures uri.port != -1 ==> r == Ok(uri.port)
    ensures uri.port == -1 && uri.scheme == "http" ==> r == Ok(80)
    ensures uri.port == -1 && uri.scheme == "https" ==> r == Ok(443)
    ensures r.Failure? <==> uri.port == -1 && uri.scheme != "http" && uri.scheme != "https"
  {
    if uri.port != -1 then Ok(uri.port)
    else if uri.scheme == "http" then Ok(HttpPort)
    else if uri.scheme == "https" then Ok(HttpsPort)
    else Failure("Invalid scheme")
  }

  // ---------------------------------------------------------------- the preamble

  /** One header line: a name and one of its values. */
  type Field = (string, string)

  function Line(f: Field): string {
    f.0 + " : " + f.1 + "\r\n"
  }

  function RequestLine(httpMethod: string, rawPath: string): string {
    httpMethod + " " + rawPath + " HTTP/1.0\r\n"
  }

  /** The fields of one name, one per value, in value order. */
  function KeyFields(key: string, vals: seq<string>): seq<Field> {
    seq(|vals|, i requires 0 <= i < |vals| => (key, vals[i]))
  }

  /** The fields of the names `keys`, in that order and then value order. */
  function Fields(keys: seq<string>, lists: map<string, seq<string>>): seq<Field> {
    if keys == [] then []
    else
      var k := keys[|keys| - 1];
      Fields(keys[..|keys| - 1], lists) + (if k in lists then KeyFields(k, lists[k]) else [])
  }

  function AllFields(h: HeaderMap): seq<Field> {
    Fields(h.keys, h.lists)
  }

  function Render(fs: seq<Field>): string {
    if fs == [] then "" else Render(fs[..|fs| - 1]) + Line(fs[|fs| - 1])
  }

  /** `getHeaderPartAsString()` as a value: request line, header lines, blank line. */
  function Preamble(httpMethod: string, rawPath: string, h: HeaderMap): string {
    RequestLine(httpMethod, rawPath) + Render(AllFields(h)) + "\r\n"
  }

  lemma {:induction false} RenderAppend(a: seq<Field>, b: seq<Field>)
    ensures Render(a + b) == Render(a) + Render(b)
    decreases |b|
  {
    if b == [] {
      assert a + b == a;
    } else {
      var ab := a + b;
      var b' := b[..|b| - 1];
      var last := b[|b| - 1];
      assert ab[..|ab| - 1] == a + b';
      assert ab[|ab| - 1] == last;
      calc {
        Render(ab);
        Render(a + b') + Line(last);
        { RenderAppend(a, b'); }
        Render(a) + Render(b') + Line(last);
        Render(a) + (Render(b') + Line(last));
        Render(a) + Render(b);
      }
    }
  }

  lemma RenderSnoc(fs: seq<Field>, f: Field)
    ensures Render(fs + [f]) == Render(fs) + Line(f)
  {
    assert (fs + [f])[..|fs|] == fs;
  }

  lemma KeyFieldsSnoc(key: string, vals: seq<string>, j: nat)
    requires j < |vals|
    ensures KeyFields(key, vals[..j + 1]) == KeyFields(key, vals[..j]) + [(key, vals[j])]
  {
  }

  lemma FieldsSnoc(keys: seq<string>, i: nat, lists: map<string, seq<string>>)
    requires i < |keys|
    ensures Fields(keys[..i + 1], lists)
         == Fields(keys[..i], lists) + (if keys[i] in lists then KeyFields(keys[i], lists[keys[i]]) else [])
  {
    assert keys[..i + 1][..i] == keys[..i];
  }

  /** The lines of the first i + 1 names are those of the first i and then those of name i. */
  lemma RenderFieldsSnoc(keys: seq<string>, i: nat, lists: map<string, seq<string>>)
    requires i < |keys|
    ensures Render(Fields(keys[..i + 1], lists))
         == Render(Fields(keys[..i], lists)) + Render(if keys[i] in lists then KeyFields(keys[i], lists[keys[i]]) else [])
  {
    FieldsSnoc(keys, i, lists);
    RenderAppend(Fields(keys[..i], lists), if keys[i] in lists then KeyFields(keys[i], lists[keys[i]]) else []);
  }

  /** One round of the outer loop of `getHeaderPartAsString()` adds the lines of name i. */
  lemma NextKeyLines(line: string, prev: string, s: string, keys: seq<string>, i: nat, lists: map<string, seq<string>>)
    requires i < |keys| && prev == line + Render(Fields(keys[..i], lists))
    requires keys[i] in lists ==> s == prev + Render(KeyFields(keys[i], lists[keys[i]]))
    requires keys[i] !in lists ==> s == prev
    ensures s == line + Render(Fields(keys[..i + 1], lists))
  {
    var mine := if keys[i] in lists then KeyFields(keys[i], lists[keys[i]]) else [];
    RenderFieldsSnoc(keys, i, lists);
    assert s == prev + Render(mine) by {
      if keys[i] !in lists {
        assert Render(mine) == [];
        assert prev + [] == prev;
      }
    }
    ConcatAssoc(line, Render(Fields(keys[..i], lists)), Render(mine));
  }

  /** The inner loop of `getHeaderPartAsString()`: one line per value of `key`, in order. */
  method AppendValueLines(s0: string, key: string, vals: seq<string>) returns (s: string)
    ensures s == s0 + Render(KeyFields(key, vals))
  {
    s := s0;
    var j := 0;
    while j < |vals|
      invariant 0 <= j <= |vals|
      invariant s == s0 + Render(KeyFields(key, vals[..j]))
    {
      KeyFieldsSnoc(key, vals, j);
      RenderSnoc(KeyFields(key, vals[..j]), (key, vals[j]));
      s := s + Line((key, vals[j]));
      j := j + 1;
    }
    assert vals[..j] == vals;
  }

  /** Rendering a short list of fields line by line. */
  lemma RenderTwo(f: Field, g: Field)
    ensures Render([f, g]) == Line(f) + Line(g)
  {
    assert [f, g] == [f] + [g];
    RenderAppend([f], [g]);
    assert [f][..0] == [];
    assert [g][..0] == [];
  }

  lemma RenderThree(f: Field, g: Field, h: Field)
    ensures Render([f, g, h]) == Line(f) + Line(g) + Line(h)
  {
    assert [f, g, h] == [f, g] + [h];
    RenderAppend([f, g], [h]);
    RenderTwo(f, g);
    assert [h][..0] == [];
  }

  /** A header line is in the preamble exactly for each stored (name, value) pair. */
  lemma {:induction false} FieldsMembers(keys: seq<string>, lists: map<string, seq<string>>, f: Field)
    ensures f in Fields(keys, lists) <==> f.0 in keys && f.0 in lists && f.1 in lists[f.0]
  {
    if keys != [] {
      var k := keys[|keys| - 1];
      var front := keys[..|keys| - 1];
      FieldsMembers(front, lists, f);
      assert keys == front + [k];
      if k in lists {
        assert f in KeyFields(k, lists[k]) <==> f.0 == k && f.1 in lists[k] by {
          if f.0 == k && f.1 in lists[k] {
            var i :| 0 <= i < |lists[k]| && lists[k][i] == f.1;
            assert KeyFields(k, lists[k])[i] == f;
          }
        }
      }
    }
  }

  /** The number of header lines is the number of stored values. */
  lemma {:induction false} FieldsCount(keys: seq<string>, lists: map<string, seq<string>>)
    ensures |Fields(keys, lists)| == ValueCount(keys, lists)
  {
    if keys != [] {
      FieldsCount(keys[..|keys| - 1], lists);
    }
  }

  function ValueCount(keys: seq<string>, lists: map<string, seq<string>>): nat {
    if keys == [] then 0
    else
      var k := keys[|keys| - 1];
      ValueCount(keys[..|keys| - 1], lists) + (if k in lists then |lists[k]| else 0)
  }

  /** Fields only depend on the lists of the names listed. */
  lemma {:induction false} FieldsFrame(keys: seq<string>, l1: map<string, seq<string>>, l2: map<string, seq<string>>)
    requires forall k :: k in keys ==> (k in l1 <==> k in l2) && (k in l1 ==> l1[k] == l2[k])
    ensures Fields(keys, l1) == Fields(keys, l2)
  {
    if keys != [] {
      FieldsFrame(keys[..|keys| - 1], l1, l2);
    }
  }

  /** Adding a new name appends exactly one line, for that name and value, after all existing lines. */
  lemma AddedNewField(h: HeaderMap, name: string, value: string)
    requires WellFormed(h)
    requires Lower(name) !in h.lists
    ensures AllFields(Added(h, name, value)) == AllFields(h) + [(Lower(name), value)]
  {
    var r := Added(h, name, value);
    var k := Lower(name);
    assert r.keys[..|r.keys| - 1] == h.keys;
    FieldsFrame(h.keys, h.lists, r.lists);
  }

  /** The headers of a GET request once `request` has added `connection: close`. */
  lemma GetHeaders(host: string)
    ensures Added(Added(Empty(), "Host", host), "Connection", "close")
         == HeaderMap(["host", "connection"], map["host" := [host], "connection" := ["close"]])
  {
    assert Lower("Host") == "host";
    assert Lower("Connection") == "connection";
  }

  /** Two names with one value each give one line each, in key order. */
  lemma FieldsOfTwo(k1: string, v1: string, k2: string, v2: string)
    requires k1 != k2
    ensures Fields([k1, k2], map[k1 := [v1], k2 := [v2]]) == [(k1, v1), (k2, v2)]
  {
    var m := map[k1 := [v1], k2 := [v2]];
    assert [k1, k2][..1] == [k1];
    assert [k1][..0] == [];
    assert Fields([k1], m) == [(k1, v1)];
  }

  /** Three names with one value each give one line each, in key order. */
  lemma FieldsOfThree(k1: string, v1: string, k2: string, v2: string, k3: string, v3: string)
    requires k1 != k2 && k1 != k3 && k2 != k3
    ensures Fields([k1, k2, k3], map[k1 := [v1], k2 := [v2], k3 := [v3]]) == [(k1, v1), (k2, v2), (k3, v3)]
  {
    var m := map[k1 := [v1], k2 := [v2], k3 := [v3]];
    assert [k1, k2, k3][..2] == [k1, k2];
    assert [k1, k2][..1] == [k1];
    assert [k1][..0] == [];
    assert Fields([k1], m) == [(k1, v1)];
    assert Fields([k1, k2], m) == [(k1, v1), (k2, v2)];
  }

  /** The preamble of a GET to `host`/`rawPath` once `request` has added `connection: close`. */
  lemma GetPreamble(host: string, rawPath: string)
    ensures Preamble("GET", rawPath, Added(Added(Empty(), "Host", host), "Connection", "close"))
         == RequestLine("GET", rawPath) + Line(("host", host)) + Line(("connection", "close")) + "\r\n"
  {
    GetHeaders(host);
    FieldsOfTwo("host", host, "connection", "close");
    RenderTwo(("host", host), ("connection", "close"));
    ConcatAssoc(RequestLine("GET", rawPath), Line(("host", host)), Line(("connection", "close")));
  }

  /** The headers of a POST once `request` has added `connection: close`. */
  lemma PostHeaders(host: string, length: string)
    ensures Added(Added(Added(Empty(), "Host", host), "Content-Length", length), "Connection", "close")
         == HeaderMap(["host", "content-length", "connection"],
                      map["host" := [host], "content-length" := [length], "connection" := ["close"]])
  {
    assert Lower("Host") == "host";
    assert Lower("Content-Length") == "content-length";
    assert Lower("Connection") == "connection";
  }

  /**
   * The preamble of a POST whose `content-length` value is `n` once `request` has added
   * `connection: close`.
   */
  lemma PostPreamble(host: string, rawPath: string, n: string)
    ensures Preamble("POST", rawPath,
              Added(Added(Added(Empty(), "Host", host), "Content-Length", n), "Connection", "close"))
         == RequestLine("POST", rawPath) + Line(("host", host)) + Line(("content-length", n))
            + Line(("connection", "close")) + "\r\n"
  {
    PostHeaders(host, n);
    FieldsOfThree("host", host, "content-length", n, "connection", "close");
    RenderThree(("host", host), ("content-length", n), ("connection", "close"));
    var rl, l1, l2, l3 := RequestLine("POST", rawPath), Line(("host", host)), Line(("content-length", n)), Line(("connection", "close"));
    ConcatAssoc(rl, l1 + l2, l3);
    ConcatAssoc(rl, l1, l2);
  }

  // ---------------------------------------------------------------- the body

  /**
   * One call of `writeEntity` against a socket with room for `room` more bytes: the base
   * class has no body and reports "finished"; a string body writes what fits of the bytes
   * not yet written and reports whether any remain. Result: (new wroteBytes, more to write).
   */
  function EntityWrite(content: Option<seq<byte>>, wrote: nat, room: nat): (nat, bool) {
    match content
    case None => (wrote, false)
    case Some(bytes) =>
      var w := if wrote <= |bytes| then Min(room, |bytes| - wrote) else 0;
      (wrote + w, |bytes| != wrote + w)
  }

  function Min(a: nat, b: nat): nat {
    if a <= b then a else b
  }

  /** The body bytes that one call of `writeEntity` puts on the socket. */
  function EntitySent(content: Option<seq<byte>>, wrote: nat, room: nat): seq<byte>
    requires content.Some? ==> wrote <= |content.value|
  {
    match content
    case None => []
    case Some(bytes) => bytes[wrote..EntityWrite(content, wrote, room).0]
  }

  /**
   * `writeEntity` on a string body: the counter grows by exactly the bytes accepted, never
   * passes the body length, and "more to write" holds exactly while the counter is short of it.
   */
  lemma EntityWriteCounts(bytes: seq<byte>, wrote: nat, room: nat)
    requires wrote <= |bytes|
    ensures var (w, more) := EntityWrite(Some(bytes), wrote, room);
      w - wrote == |EntitySent(Some(bytes), wrote, room)| == Min(room, |bytes| - wrote) &&
      w <= |bytes| &&
      (more <==> w != |bytes|) &&
      (more <==> w < |bytes|) &&
      (room > 0 && wrote < |bytes| ==> w > wrote)
  {
  }

  /** With no body, `writeEntity` writes nothing and reports "finished" at once. */
  lemma NoEntityFinishes(wrote: nat, room: nat)
    ensures EntityWrite(None, wrote, room) == (wrote, false)
    ensures EntitySent(None, wrote, room) == []
  {
  }

  // ---------------------------------------------------------------- the request object

  /**
   * An `HttpRequest` (`content == None`) or a `StringHttpRequest` (`content` holds the
   * bytes of the string body). `wroteBytes` is the body-write counter of the latter.
   */
  class HttpRequest {
    const uri: Uri
    const httpMethod: string
    const headers: HttpHeaders
    const content: Option<seq<byte>>
    var wroteBytes: nat

    ghost predicate Valid()
      reads this, headers
    {
      headers.Valid() &&
      (content.None? ==> wroteBytes == 0) &&
      (content.Some? ==> wroteBytes <= |content.value|)
    }

    /** `new HttpRequest(method, uri)`: the only header is `host`, set from the URI. */
    constructor (httpMethod: string, uri: Uri)
      ensures Valid() && fresh(headers)
      ensures this.httpMethod == httpMethod && this.uri == uri
      ensures content == None && wroteBytes == 0
      ensures headers.Value() == Added(Empty(), "Host", uri.host)
    {
      this.uri := uri;
      this.httpMethod := httpMethod;
      this.content := None;
      this.wroteBytes := 0;
      var hs := new HttpHeaders();
      this.headers := hs;
      new;
      var _ := hs.Add("Host", uri.host);
    }

    /**
     * `new StringHttpRequest(method, uri, content)`: `host`, then `content-length` set to the
     * decimal of `content.length()`; the body's UTF-8 bytes are kept for writing.
     */
    constructor WithContent(httpMethod: string, uri: Uri, text: string)
      ensures Valid() && fresh(headers)
      ensures this.httpMethod == httpMethod && this.uri == uri
      ensures content == Some(Utf8(text)) && wroteBytes == 0
      ensures headers.Value() == Added(Added(Empty(), "Host", uri.host), "Content-Length", Decimal(Utf16Length(text)))
    {
      var body := Utf8(text);
      var length := Decimal(Utf16Length(text));
      this.uri := uri;
      this.httpMethod := httpMethod;
      this.content := Some(body);
      this.wroteBytes := 0;
      var hs := new HttpHeaders();
      this.headers := hs;
      new;
      var _ := hs.Add("Host", uri.host);
      var _ := hs.Add("Content-Length", length);
    }

    /** `getPort()`. */
    function Port(): (r: Result<int>)
      ensures r == GetPort(uri)
      ensures r.Ok? ==> r.value == uri.port || r.value == HttpPort || r.value == HttpsPort
    {
      GetPort(uri)
    }

    /** `getHeaderPartAsString()`, built line by line as the Java code does. */
    method HeaderPartAsString() returns (s: string)
      ensures s == Preamble(httpMethod, uri.rawPath, headers.Value())
    {
      var line := RequestLine(httpMethod, uri.rawPath);
      s := line;
      var keys := headers.KeySet();
      ghost var lists := headers.lists;
      var i := 0;
      while i < |keys|
        invariant 0 <= i <= |keys|
        invariant s == line + Render(Fields(keys[..i], lists))
      {
        var key := keys[i];
        var vals := headers.Get(key);
        ghost var prev := s;
        if vals.Some? {
          s := AppendValueLines(s, key, vals.value);
        }
        NextKeyLines(line, prev, s, keys, i, lists);
        i := i + 1;
      }
      assert keys[..i] == keys;
      s := s + "\r\n";
    }

    /** `writeEntity(socket)` against a socket with room for `room` more bytes. */
    method WriteEntity(room: nat) returns (more: bool)
      requires Valid()
      modifies this
      ensures Valid()
      ensures (wroteBytes, more) == EntityWrite(content, old(wroteBytes), room)
    {
      match content
      case None =>
        more := false;
      case Some(bytes) =>
        var wrote := Min(room, |bytes| - wroteBytes);
        wroteBytes := wroteBytes + wrote;
        more := |bytes| != wroteBytes;
    }
  }

  /** A new request has exactly one header, `host`, holding the URI's host once. */
  lemma NewRequestHeaders(host: string)
    ensures Added(Empty(), "Host", host) == HeaderMap(["host"], map["host" := [host]])
  {
    assert Lower("Host") == "host";
  }

  /**
   * The `content-length` a string body gets reads back as the number of bytes sent exactly
   * when the body is ASCII; any other body is announced shorter than it is.
   */
  lemma ContentLengthMatchesBody(text: string)
    ensures ParseDecimal(Decimal(Utf16Length(text))) <= |Utf8(text)|
    ensures ParseDecimal(Decimal(Utf16Length(text))) == |Utf8(text)| <==> IsAscii(text)
  {
    DecimalRoundTrip(Utf16Length(text));
    Utf8Length(text);
  }
}
