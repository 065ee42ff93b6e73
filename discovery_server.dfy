/**
 * The discovery record of one server instance and the registration key it is
 * published under (common/discovery/server.go).
 */
module DiscoveryServer {
  import opened Optional

  /** One server instance: service name, dialable address, optional version, load-balancing weight, lease TTL. */
  datatype Server = Server(name: string, addr: string, version: string, weight: int, ttl: int)

  /**
   * The key the registrar writes: "/name/addr" without a version,
   * "/name/version/addr" with one.
   */
  function BuildRegisterKey(s: Server): (key: string)
    ensures |key| > 0 && key[0] == '/'
    ensures |key| == 2 + |s.name| + |s.addr| + (if s.version == "" then 0 else 1 + |s.version|)
  {
    if s.version == "" then "/" + s.name + "/" + s.addr
    else "/" + s.name + "/" + s.version + "/" + s.addr
  }

  predicate SlashFree(x: string) {
    forall i :: 0 <= i < |x| ==> x[i] != '/'
  }

  /** The fields a key can carry unambiguously: non-empty name and address, no '/' in any of the three. */
  predicate WellFormed(s: Server) {
    s.name != "" && SlashFree(s.name) && s.addr != "" && SlashFree(s.addr) && SlashFree(s.version)
  }

  /** Length of the run of non-'/' characters at the front of `k`. */
  function SegmentLength(k: string): (n: nat)
    ensures n <= |k|
    ensures forall i :: 0 <= i < n ==> k[i] != '/'
    ensures n < |k| ==> k[n] == '/'
  {
    if k == [] || k[0] == '/' then 0 else 1 + SegmentLength(k[1..])
  }

  /** `k` split on '/', with the empty pieces (leading, trailing, doubled slashes) dropped. */
  function Segments(k: string): (segs: seq<string>)
    ensures forall i :: 0 <= i < |segs| ==> segs[i] != "" && SlashFree(segs[i])
    decreases |k|
  {
    if k == [] then []
    else if k[0] == '/' then Segments(k[1..])
    else
      var n := SegmentLength(k);
      [k[..n]] + Segments(k[n..])
  }

  /**
   * A reference key decoder: two segments give name and address, three give
   * name, version and address; any other count is an invalid key. Weight and TTL
   * are not carried by the key and come back as zero.
   */
  function DecodeKey(key: string): (r: Option<Server>)
    ensures r.Some? <==> |Segments(key)| == 2 || |Segments(key)| == 3
    ensures r.Some? ==> r.value.weight == 0 && r.value.ttl == 0 && WellFormed(r.value)
  {
    var segs := Segments(key);
    if |segs| == 2 then Some(Server(segs[0], segs[1], "", 0, 0))
    else if |segs| == 3 then Some(Server(segs[0], segs[2], segs[1], 0, 0))
    else None
  }

  /** A non-empty slash-free field followed by nothing or by a '/' is exactly one segment. */
  lemma SegmentsOfField(x: string, rest: string)
    requires x != "" && SlashFree(x)
    requires rest == [] || rest[0] == '/'
    ensures Segments(x + rest) == [x] + Segments(rest)
  {
    var k := x + rest;
    assert forall i :: 0 <= i < |x| ==> k[i] == x[i] && k[i] != '/';
    assert |x| < |k| ==> k[|x|] == rest[0] == '/';
    var n := SegmentLength(k);
    assert n == |x|;
    assert k[..n] == x;
    assert k[n..] == rest;
  }

  /** A leading '/' contributes no segment. */
  lemma SegmentsAfterSlash(rest: string)
    ensures Segments("/" + rest) == Segments(rest)
  {
    assert ("/" + rest)[1..] == rest;
  }

  /** "/" followed by a field and then nothing or another '/'-led part contributes exactly that field. */
  lemma SegmentsOfSlashField(x: string, rest: string)
    requires x != "" && SlashFree(x)
    requires rest == [] || rest[0] == '/'
    ensures Segments("/" + (x + rest)) == [x] + Segments(rest)
  {
    SegmentsAfterSlash(x + rest);
    SegmentsOfField(x, rest);
  }

  /** "/addr" with a non-empty slash-free address is the single segment addr. */
  lemma AddrSegments(addr: string)
    requires addr != "" && SlashFree(addr)
    ensures Segments("/" + addr) == [addr]
  {
    assert addr + [] == addr;
    SegmentsOfSlashField(addr, []);
  }

  /** The key of a well-formed record splits into [name, addr] or [name, version, addr]. */
  lemma KeySegments(s: Server)
    requires WellFormed(s)
    ensures Segments(BuildRegisterKey(s)) == if s.version == "" then [s.name, s.addr] else [s.name, s.version, s.addr]
    ensures |Segments(BuildRegisterKey(s))| == if s.version == "" then 2 else 3
  {
    var tail := "/" + s.addr;
    AddrSegments(s.addr);
    if s.version == "" {
      assert BuildRegisterKey(s) == "/" + (s.name + tail);
      SegmentsOfSlashField(s.name, tail);
    } else {
      var rest := "/" + (s.version + tail);
      SegmentsOfSlashField(s.version, tail);
      assert BuildRegisterKey(s) == "/" + (s.name + rest);
      SegmentsOfSlashField(s.name, rest);
    }
  }

  /** Decoding a well-formed record's key recovers its name, version and address. */
  lemma KeyRoundTrip(s: Server)
    requires WellFormed(s)
    ensures DecodeKey(BuildRegisterKey(s)) == Some(s.(weight := 0, ttl := 0))
  {
    KeySegments(s);
  }

  /**
   * For well-formed records, two keys coincide exactly when the records agree on
   * name, version and address: weight and TTL never reach the key, and distinct
   * triples never share one.
   */
  lemma KeyIdentity(s: Server, t: Server)
    requires WellFormed(s) && WellFormed(t)
    ensures BuildRegisterKey(s) == BuildRegisterKey(t) <==> (s.name, s.version, s.addr) == (t.name, t.version, t.addr)
  {
    if BuildRegisterKey(s) == BuildRegisterKey(t) {
      KeyRoundTrip(s);
      KeyRoundTrip(t);
    }
  }
}
