/** The client address behind trusted proxies, internal/api/clientip.go. Address and
    network parsing are library calls, so they are parameters. */
module ClientIP {
  import opened Options

  datatype Library<!IP, !Net> = Library(
    trimSpace: string -> string,
    splitHostPort: string -> Option<string>,
    parseIP: string -> Option<IP>,
    parseCIDR: string -> Option<Net>,
    contains: (Net, IP) -> bool,
    show: IP -> string)

  datatype Config = Config(trustProxyHeaders: bool, trustedProxyCIDRs: seq<string>)

  // ----- splitting at commas -----

  /** The fields once the character `c` has been put in front of the text. */
  function PutBefore(c: char, fields: seq<string>): (r: seq<string>)
    requires |fields| > 0
    ensures |r| > 0
  {
    if c == ',' then [""] + fields else [[c] + fields[0]] + fields[1..]
  }

  function Split(s: string): (fields: seq<string>)
    ensures |fields| > 0
  {
    if s == "" then [""] else PutBefore(s[0], Split(s[1..]))
  }

  lemma PutBeforeFront(c: char, a: seq<string>, b: seq<string>)
    requires |a| > 0
    ensures PutBefore(c, a + b) == PutBefore(c, a) + b
  {
    assert (a + b)[1..] == a[1..] + b;
  }

  lemma {:induction false} SplitJoined(a: string, b: string)
    ensures Split(a + "," + b) == Split(a) + Split(b)
  {
    hide PutBefore;
    var whole := a + "," + b;
    if a == "" {
      assert whole[0] == ',' && whole[1..] == b;
      assert PutBefore(',', Split(b)) == [""] + Split(b) by { SplitsAtComma(b); }
    } else {
      SplitJoined(a[1..], b);
      assert whole[0] == a[0] && whole[1..] == a[1..] + "," + b;
      PutBeforeFront(a[0], Split(a[1..]), Split(b));
    }
  }

  lemma SplitsAtComma(b: string)
    ensures PutBefore(',', Split(b)) == [""] + Split(b)
  {
  }

  lemma {:induction false} SplitWithoutComma(s: string)
    requires ',' !in s
    ensures Split(s) == [s]
  {
    if s != "" {
      SplitWithoutComma(s[1..]);
      assert [s[0]] + s[1..] == s;
    }
  }

  function LastIndex(s: string, c: char): (i: int)
    ensures -1 <= i < |s|
    ensures i == -1 ==> c !in s
    ensures i >= 0 ==> s[i] == c && c !in s[i + 1..]
  {
    if s == "" then -1
    else if s[|s| - 1] == c then |s| - 1
    else
      var i := LastIndex(s[..|s| - 1], c);
      assert s == s[..|s| - 1] + [s[|s| - 1]];
      assert i >= 0 ==> s[i + 1..] == s[..|s| - 1][i + 1..] + [s[|s| - 1]];
      i
  }

  lemma RejoinAt(s: string, i: nat)
    requires i < |s| && s[i] == ','
    ensures s[..i] + "," + s[i + 1..] == s
  {
    assert s[..i] + [s[i]] + s[i + 1..] == s;
  }

  lemma SplitAtLast(s: string, i: nat)
    requires i < |s| && s[i] == ',' && ',' !in s[i + 1..]
    ensures Split(s) == Split(s[..i]) + [s[i + 1..]]
  {
    hide Split;
    RejoinAt(s, i);
    SplitJoined(s[..i], s[i + 1..]);
    SplitWithoutComma(s[i + 1..]);
  }

  // ----- reading addresses -----

  function ParseHeaderIP<IP, Net>(lib: Library<IP, Net>, value: string): Option<IP> {
    var clean := lib.trimSpace(value);
    if clean == "" then None
    else if lib.splitHostPort(clean).Some? then lib.parseIP(lib.splitHostPort(clean).value)
    else if clean[0] == '[' && clean[|clean| - 1] == ']' then lib.parseIP(clean[1..|clean| - 1])
    else lib.parseIP(clean)
  }

  function ParseRemoteIP<IP, Net>(lib: Library<IP, Net>, remoteAddr: string): Option<IP> {
    if remoteAddr == "" then None
    else if lib.splitHostPort(remoteAddr).Some? then ParseHeaderIP(lib, lib.splitHostPort(remoteAddr).value)
    else ParseHeaderIP(lib, remoteAddr)
  }

  function IPString<IP, Net>(lib: Library<IP, Net>, ip: Option<IP>): string {
    if ip.None? then "unknown" else lib.show(ip.value)
  }

  /** The forms an address may take in a header: with a port, in brackets, or bare, all
      after trimming; nothing names nobody. */
  lemma HeaderForms<IP, Net>(lib: Library<IP, Net>, value: string, address: string)
    ensures var clean := lib.trimSpace(value);
            && (clean == "" ==> ParseHeaderIP(lib, value) == None)
            && (clean != "" && lib.splitHostPort(clean) == Some(address) ==>
                  ParseHeaderIP(lib, value) == lib.parseIP(address))
            && (lib.splitHostPort(clean) == None && clean == "[" + address + "]" ==>
                  ParseHeaderIP(lib, value) == lib.parseIP(address))
            && (clean != "" && lib.splitHostPort(clean) == None && (clean[0] != '[' || clean[|clean| - 1] != ']') ==>
                  ParseHeaderIP(lib, value) == lib.parseIP(clean))
  {
    var clean := lib.trimSpace(value);
    if clean == "[" + address + "]" {
      assert clean[1..|clean| - 1] == address;
    }
  }

  /** A connection's address is read like a header, without the port if it has one. */
  lemma RemoteForms<IP, Net>(lib: Library<IP, Net>, remoteAddr: string, host: string)
    requires lib.trimSpace("") == ""
    ensures remoteAddr != "" && lib.splitHostPort(remoteAddr) == Some(host) ==>
              ParseRemoteIP(lib, remoteAddr) == ParseHeaderIP(lib, host)
    ensures lib.splitHostPort(remoteAddr) == None ==> ParseRemoteIP(lib, remoteAddr) == ParseHeaderIP(lib, remoteAddr)
    ensures ParseRemoteIP(lib, "") == None
  {
  }

  // ----- the specification of the scan -----

  ghost predicate Trusted<IP, Net>(lib: Library<IP, Net>, nets: seq<Net>, ip: Option<IP>) {
    ip.Some? && exists i :: 0 <= i < |nets| && lib.contains(nets[i], ip.value)
  }

  /** A field that names someone outside the trusted networks. */
  ghost predicate NamesClient<IP, Net>(lib: Library<IP, Net>, nets: seq<Net>, field: string) {
    ParseHeaderIP(lib, field).Some? && !Trusted(lib, nets, ParseHeaderIP(lib, field))
  }

  ghost function Scan<IP, Net>(lib: Library<IP, Net>, nets: seq<Net>, fields: seq<string>): Option<IP> {
    if fields == [] then None
    else
      var last := fields[|fields| - 1];
      if NamesClient(lib, nets, last) then ParseHeaderIP(lib, last) else Scan(lib, nets, fields[..|fields| - 1])
  }

  /** The scan answers with the last field that names a client, and only then. */
  lemma {:induction false} ScanFindsLast<IP, Net>(lib: Library<IP, Net>, nets: seq<Net>, fields: seq<string>)
    ensures Scan(lib, nets, fields).None? <==> forall i | 0 <= i < |fields| :: !NamesClient(lib, nets, fields[i])
    ensures Scan(lib, nets, fields).Some? ==>
              exists i :: && 0 <= i < |fields| && NamesClient(lib, nets, fields[i])
                          && Scan(lib, nets, fields) == ParseHeaderIP(lib, fields[i])
                          && forall j | i < j < |fields| :: !NamesClient(lib, nets, fields[j])
  {
    if fields != [] {
      ScanFindsLast(lib, nets, fields[..|fields| - 1]);
    }
  }

  lemma {:induction false} ScanAppend<IP, Net>(lib: Library<IP, Net>, nets: seq<Net>, a: seq<string>, b: seq<string>)
    ensures Scan(lib, nets, a + b) == if Scan(lib, nets, b).Some? then Scan(lib, nets, b) else Scan(lib, nets, a)
  {
    if b == [] {
      assert a + b == a;
    } else {
      ScanAppend(lib, nets, a, b[..|b| - 1]);
      assert (a + b)[..|a + b| - 1] == a + b[..|b| - 1];
    }
  }

  ghost function FromHeader<IP, Net>(lib: Library<IP, Net>, nets: seq<Net>, xff: string): Option<IP> {
    Scan(lib, nets, Split(xff))
  }

  lemma EmptyHeaderNamesNobody<IP, Net>(lib: Library<IP, Net>, nets: seq<Net>)
    requires lib.trimSpace("") == ""
    ensures FromHeader(lib, nets, "").None?
  {
    ScanFindsLast(lib, nets, Split(""));
    assert Split("") == [""];
  }

  /** Once the header names a client, no text in front of it changes the answer. */
  lemma PrependedTextIsIgnored<IP, Net>(lib: Library<IP, Net>, nets: seq<Net>, text: string, xff: string)
    requires FromHeader(lib, nets, xff).Some?
    ensures FromHeader(lib, nets, text + "," + xff) == FromHeader(lib, nets, xff)
  {
    SplitJoined(text, xff);
    ScanAppend(lib, nets, Split(text), Split(xff));
  }

  /** The header after each hop in turn has appended its own peer. */
  function Forwarded(xff: string, hops: seq<string>): string {
    if hops == [] then xff else Forwarded(xff, hops[..|hops| - 1]) + "," + hops[|hops| - 1]
  }

  /** What the hops append are fields of their own, in the order of the hops. */
  lemma {:induction false} ForwardedFields(xff: string, hops: seq<string>)
    requires forall i | 0 <= i < |hops| :: ',' !in hops[i]
    ensures Split(Forwarded(xff, hops)) == Split(xff) + hops
  {
    if hops != [] {
      var init, last := hops[..|hops| - 1], hops[|hops| - 1];
      ForwardedFields(xff, init);
      SplitJoined(Forwarded(xff, init), last);
      SplitWithoutComma(last);
    }
  }

  /** A client behind any chain of trusted proxies is recognised, and what it wrote
      into the header itself is ignored. */
  lemma {:induction false} ForgedHeaderIsIgnored<IP, Net>(
      lib: Library<IP, Net>, nets: seq<Net>, forged: string, client: string, hops: seq<string>)
    requires ',' !in client && NamesClient(lib, nets, client)
    requires forall i | 0 <= i < |hops| :: ',' !in hops[i] && !NamesClient(lib, nets, hops[i])
    ensures FromHeader(lib, nets, Forwarded(client, hops)) == ParseHeaderIP(lib, client)
    ensures FromHeader(lib, nets, Forwarded(forged + "," + client, hops)) == ParseHeaderIP(lib, client)
  {
    SplitWithoutComma(client);
    if hops == [] {
      PrependedTextIsIgnored(lib, nets, forged, client);
    } else {
      var init, last := hops[..|hops| - 1], hops[|hops| - 1];
      ForgedHeaderIsIgnored(lib, nets, forged, client, init);
      SplitWithoutComma(last);
      forall front
        ensures FromHeader(lib, nets, front + "," + last) == FromHeader(lib, nets, front)
      {
        SplitJoined(front, last);
        ScanAppend(lib, nets, Split(front), [last]);
      }
    }
  }

  // ----- the resolver -----

  /** The networks the entries name, in order, and whether an entry names none. */
  function Networks<IP, Net>(lib: Library<IP, Net>, cidrs: seq<string>): seq<Net> {
    if cidrs == [] then []
    else
      var net := lib.parseCIDR(lib.trimSpace(cidrs[|cidrs| - 1]));
      Networks(lib, cidrs[..|cidrs| - 1])
      + if lib.trimSpace(cidrs[|cidrs| - 1]) == "" || net.None? then [] else [net.value]
  }

  predicate Invalid<IP, Net>(lib: Library<IP, Net>, entry: string) {
    lib.trimSpace(entry) != "" && lib.parseCIDR(lib.trimSpace(entry)).None?
  }

  /** Every entry is empty, names one network, or is invalid, and the networks of a list are
      those of its parts in order. */
  lemma {:induction false} NetworksOfEntries<IP, Net>(
      lib: Library<IP, Net>, front: seq<string>, back: seq<string>, entry: string)
    ensures Networks(lib, front + back) == Networks(lib, front) + Networks(lib, back)
    ensures var text := lib.trimSpace(entry);
            if text == "" then Networks(lib, [entry]) == [] && !Invalid(lib, entry)
            else match lib.parseCIDR(text)
                 case Some(net) => Networks(lib, [entry]) == [net] && !Invalid(lib, entry)
                 case None => Networks(lib, [entry]) == [] && Invalid(lib, entry)
  {
    if back == [] {
      assert front + back == front;
    } else {
      NetworksOfEntries(lib, front, back[..|back| - 1], entry);
      assert (front + back)[..|front + back| - 1] == front + back[..|back| - 1];
    }
    assert Networks(lib, [entry][..0]) == [];
  }

  method ParseTrustedProxyCIDRs<IP, Net>(lib: Library<IP, Net>, cidrs: seq<string>)
    returns (networks: seq<Net>, invalid: seq<string>)
    ensures networks == Networks(lib, cidrs)
    ensures invalid == [] <==> forall i | 0 <= i < |cidrs| :: !Invalid(lib, cidrs[i])
    ensures forall text | text in invalid ::
              exists i :: 0 <= i < |cidrs| && Invalid(lib, cidrs[i]) && text == lib.trimSpace(cidrs[i])
  {
    networks, invalid := [], [];
    for i := 0 to |cidrs|
      invariant networks == Networks(lib, cidrs[..i])
      invariant invalid == [] <==> forall j | 0 <= j < i :: !Invalid(lib, cidrs[j])
      invariant forall text | text in invalid ::
                  exists j :: 0 <= j < i && Invalid(lib, cidrs[j]) && text == lib.trimSpace(cidrs[j])
    {
      assert cidrs[..i + 1][..i] == cidrs[..i];
      var trimmed := lib.trimSpace(cidrs[i]);
      if trimmed == "" { continue; }
      var network := lib.parseCIDR(trimmed);
      if network.None? {
        invalid := invalid + [trimmed];
        continue;
      }
      networks := networks + [network.value];
    }
    assert cidrs[..|cidrs|] == cidrs;
  }

  class ClientIPResolver<IP, Net> {
    const lib: Library<IP, Net>
    const trustProxyHeaders: bool
    const trustedProxyNets: seq<Net>

    /** One malformed network turns the whole trust in headers off. */
    constructor (lib: Library<IP, Net>, cfg: Option<Config>)
      ensures this.lib == lib
      ensures cfg.None? ==> !trustProxyHeaders && trustedProxyNets == []
      ensures cfg.Some? ==>
                && trustedProxyNets == Networks(lib, cfg.value.trustedProxyCIDRs)
                && (trustProxyHeaders <==>
                      && cfg.value.trustProxyHeaders
                      && forall i | 0 <= i < |cfg.value.trustedProxyCIDRs| ::
                            !Invalid(lib, cfg.value.trustedProxyCIDRs[i]))
    {
      this.lib := lib;
      if cfg.None? {
        trustProxyHeaders, trustedProxyNets := false, [];
      } else {
        var networks, invalid := ParseTrustedProxyCIDRs(lib, cfg.value.trustedProxyCIDRs);
        trustProxyHeaders := cfg.value.trustProxyHeaders && |invalid| == 0;
        trustedProxyNets := networks;
      }
    }

    method IsTrustedProxy(ip: Option<IP>) returns (trusted: bool)
      ensures trusted <==> Trusted(lib, trustedProxyNets, ip)
    {
      if ip.None? || |trustedProxyNets| == 0 { return false; }
      for i := 0 to |trustedProxyNets|
        invariant forall j | 0 <= j < i :: !lib.contains(trustedProxyNets[j], ip.value)
      {
        if lib.contains(trustedProxyNets[i], ip.value) { return true; }
      }
      return false;
    }

    /** The right-to-left loop answers as splitting and scanning would. */
    method RightmostUntrustedIP(xff: string) returns (client: Option<IP>)
      requires lib.trimSpace("") == ""
      ensures client == FromHeader(lib, trustedProxyNets, xff)
    {
      EmptyHeaderNamesNobody(lib, trustedProxyNets);
      var remainder := xff;
      while remainder != ""
        decreases |remainder|
        invariant FromHeader(lib, trustedProxyNets, xff) == FromHeader(lib, trustedProxyNets, remainder)
      {
        var idx := LastIndex(remainder, ',');
        var part, front := remainder, "";
        if idx == -1 {
          SplitWithoutComma(remainder);
        } else {
          part, front := remainder[idx + 1..], remainder[..idx];
          SplitAtLast(remainder, idx);
        }
        ScanAppend(lib, trustedProxyNets, if idx == -1 then [] else Split(front), [part]);
        var ip := ParseHeaderIP(lib, part);
        if ip.Some? {
          var trusted := IsTrustedProxy(ip);
          if !trusted { return ip; }
        }
        remainder := front;
      }
      return None;
    }

    /** Headers count only on a connection from a trusted proxy; a forwarded-for header
        that is present rules the other header out. */
    method FromRequest(remoteAddr: string, xff: string, realIP: string) returns (client: string)
      requires lib.trimSpace("") == ""
      ensures var remote := ParseRemoteIP(lib, remoteAddr);
              var believed := trustProxyHeaders && Trusted(lib, trustedProxyNets, remote);
              var named := FromHeader(lib, trustedProxyNets, xff);
              var answer := if !believed then remote
                            else if xff != "" then (if named.Some? then named else remote)
                            else if ParseHeaderIP(lib, realIP).Some? then ParseHeaderIP(lib, realIP)
                            else remote;
              client == if answer.Some? then lib.show(answer.value) else "unknown"
    {
      var remoteIP := ParseRemoteIP(lib, remoteAddr);
      var trusted := IsTrustedProxy(remoteIP);
      if !trustProxyHeaders || !trusted { return IPString(lib, remoteIP); }
      var clientIP := RightmostUntrustedIP(xff);
      EmptyHeaderNamesNobody(lib, trustedProxyNets);
      if clientIP.Some? { return IPString(lib, clientIP); }
      if xff != "" { return IPString(lib, remoteIP); }
      clientIP := ParseHeaderIP(lib, realIP);
      if clientIP.Some? { return IPString(lib, clientIP); }
      return IPString(lib, remoteIP);
    }
  }
}
