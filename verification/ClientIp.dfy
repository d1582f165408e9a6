/**
 The client identity for rate limiting: the direct peer, unless it is a trusted proxy, in which
 case the rightmost hop of the forwarded header that is not one.
 */
module ClientIp {
  import opened Options
  import opened Text

  // An IP address; parsing and printing are parameters.
  type Addr = int

  // A limiter's trusted proxies, and how addresses are written.
  datatype Proxies = Proxies(nets: seq<Addr -> bool>, parse: string -> Option<Addr>, show: Addr -> string)

  predicate Trusts(p: Proxies, a: Addr) {
    exists i :: 0 <= i < |p.nets| && p.nets[i](a)
  }

  method Trusted(p: Proxies, a: Addr) returns (yes: bool)
    ensures yes <==> Trusts(p, a)
  {
    for i := 0 to |p.nets|
      invariant forall j :: 0 <= j < i ==> !p.nets[j](a)
    {
      if p.nets[i](a) {
        return true;
      }
    }
    return false;
  }

  // The address of a hop, if it reads as one.
  function Hop(p: Proxies, part: string): Option<Addr> {
    p.parse(Trim(part))
  }

  // A hop that can be the client.
  predicate IsClient(p: Proxies, part: string) {
    Hop(p, part).Some? && !Trusts(p, Hop(p, part).value)
  }

  predicate Rightmost(p: Proxies, parts: seq<string>, i: int) {
    0 <= i < |parts| && IsClient(p, parts[i]) && forall j :: i < j < |parts| ==> !IsClient(p, parts[j])
  }

  // The header counts only if the peer itself is a trusted proxy.
  predicate Believed(p: Proxies, peer: string, header: string) {
    |p.nets| > 0 && p.parse(peer).Some? && Trusts(p, p.parse(peer).value) && header != ""
  }

  // The key, by definition.
  ghost predicate IsKey(p: Proxies, peer: string, header: string, key: string) {
    if Believed(p, peer, header) && exists part :: part in Split(header) && IsClient(p, part)
    then exists i :: Rightmost(p, Split(header), i) && key == p.show(Hop(p, Split(header)[i]).value)
    else key == peer
  }

  // The same in plain terms.  No configured network holds the address that a text reads as.
  predicate Foreign(p: Proxies, text: string) {
    p.parse(text).Some? && forall n :: 0 <= n < |p.nets| ==> !p.nets[n](p.parse(text).value)
  }

  predicate LastForeign(p: Proxies, parts: seq<string>, i: int) {
    && 0 <= i < |parts| && Foreign(p, Trim(parts[i]))
    && forall j :: i < j < |parts| ==> !Foreign(p, Trim(parts[j]))
  }

  // A peer that is no proxy is its own key; behind a proxy the key is the last foreign piece of the
  // header, if there is one.
  ghost predicate KeyFor(p: Proxies, peer: string, header: string, key: string) {
    && (p.parse(peer).None? || Foreign(p, peer) || header == "" ==> key == peer)
    && (p.parse(peer).Some? && !Foreign(p, peer) && header != "" ==>
          forall parts: seq<string> :: ArePieces(parts, header) ==>
            && (forall i :: LastForeign(p, parts, i) ==> key == p.show(p.parse(Trim(parts[i])).value))
            && ((forall i :: 0 <= i < |parts| ==> !Foreign(p, Trim(parts[i]))) ==> key == peer))
  }

  lemma KeyMeans(p: Proxies, peer: string, header: string, key: string)
    requires IsKey(p, peer, header, key)
    ensures KeyFor(p, peer, header, key)
  {
    hide Trim, Split, Joined;
    forall parts: seq<string> | ArePieces(parts, header) && p.parse(peer).Some? && !Foreign(p, peer) && header != ""
      ensures forall i :: LastForeign(p, parts, i) ==> key == p.show(p.parse(Trim(parts[i])).value)
      ensures (forall i :: 0 <= i < |parts| ==> !Foreign(p, Trim(parts[i]))) ==> key == peer
    {
      PiecesAreSplit(parts, header);
      assert forall i :: 0 <= i < |parts| ==> (IsClient(p, parts[i]) <==> Foreign(p, Trim(parts[i])));
      forall i | LastForeign(p, parts, i)
        ensures key == p.show(p.parse(Trim(parts[i])).value)
      {
        assert Rightmost(p, parts, i) && parts[i] in Split(header);
      }
    }
  }

  /** A peer that no trusted network holds, or that does not parse, has one key whatever headers it sends. */
  lemma HeaderOfAStrangerIsIgnored(p: Proxies, peer: string, header: string, other: string, key: string)
    requires p.parse(peer).Some? ==> forall n :: 0 <= n < |p.nets| ==> !p.nets[n](p.parse(peer).value)
    ensures KeyFor(p, peer, header, key) <==> key == peer
    ensures KeyFor(p, peer, header, key) <==> KeyFor(p, peer, other, key)
  {
  }

  method ClientIP(p: Proxies, peer: string, header: string) returns (key: string)
    ensures IsKey(p, peer, header, key)
    ensures KeyFor(p, peer, header, key)
  {
    hide Trim, Split, Trusts, KeyFor;
    forall k | IsKey(p, peer, header, k)
      ensures KeyFor(p, peer, header, k)
    {
      KeyMeans(p, peer, header, k);
    }
    if |p.nets| == 0 {
      return peer;
    }
    var ra := p.parse(peer);
    if ra.None? {
      return peer;
    }
    var direct := Trusted(p, ra.value);
    if !direct || header == "" {
      return peer;
    }
    var parts := Split(header);
    var i := |parts|;
    while i > 0
      invariant 0 <= i <= |parts|
      invariant forall j :: i <= j < |parts| ==> !IsClient(p, parts[j])
    {
      i := i - 1;
      var a := p.parse(Trim(parts[i]));
      if a.Some? {
        var proxy := Trusted(p, a.value);
        if !proxy {
          assert Rightmost(p, parts, i);
          return p.show(a.value);
        }
      }
    }
    return peer;
  }

  // One request has one key.
  lemma KeyIsUnique(p: Proxies, peer: string, header: string, k1: string, k2: string)
    requires IsKey(p, peer, header, k1) && IsKey(p, peer, header, k2)
    ensures k1 == k2
  {
    hide Trim, Split, Trusts;
    var parts := Split(header);
    assert forall i, j :: Rightmost(p, parts, i) && Rightmost(p, parts, j) ==> i == j;
  }

  predicate HasClient(p: Proxies, header: string) {
    exists part :: part in Split(header) && IsClient(p, part)
  }

  /**
   A client behind trusted proxies cannot choose its key: once the right end of the header holds
   a hop that can be the client, whatever stands to the left of it has no say.
   */
  lemma LeftOfTheClientIsIgnored(p: Proxies, peer: string, left: string, right: string, key: string)
    requires Believed(p, peer, right) && HasClient(p, right)
    ensures IsKey(p, peer, left + "," + right, key) <==> IsKey(p, peer, right, key)
  {
    hide Trim, Split, Trusts, IsClient;
    var header := left + "," + right;
    SplitAtComma(left, right);
    var l, r := Split(left), Split(right);
    assert Split(header) == l + r;
    var part :| part in r && IsClient(p, part);
    assert part in l + r;
    forall i: int
      ensures Rightmost(p, r, i) <==> i >= 0 && Rightmost(p, l + r, |l| + i)
    {
      RightmostInTail(p, l, r, i);
    }
    forall i | Rightmost(p, l + r, i)
      ensures |l| <= i && Rightmost(p, r, i - |l|)
    {
      var k :| 0 <= k < |r| && r[k] == part;
      assert (l + r)[|l| + k] == part;
      assert Rightmost(p, l + r, |l| + (i - |l|));
    }
  }

  lemma RightmostInTail(p: Proxies, l: seq<string>, r: seq<string>, i: int)
    ensures Rightmost(p, r, i) <==> i >= 0 && Rightmost(p, l + r, |l| + i)
  {
    hide IsClient;
    assert forall j :: 0 <= j < |r| ==> r[j] == (l + r)[|l| + j];
    assert forall j :: |l| <= j < |l + r| ==> (l + r)[j] == r[j - |l|];
  }

  /** Trusted or unreadable hops at the right end are passed over. */
  lemma ProxiesAtTheRightAreSkipped(p: Proxies, peer: string, left: string, right: string, key: string)
    requires Believed(p, peer, left) && !HasClient(p, right)
    ensures IsKey(p, peer, left + "," + right, key) <==> IsKey(p, peer, left, key)
  {
    hide Trim, Split, Trusts, IsClient;
    var header := left + "," + right;
    SplitAtComma(left, right);
    var l, r := Split(left), Split(right);
    assert Split(header) == l + r;
    assert forall j :: 0 <= j < |r| ==> r[j] in r;
    forall i
      ensures Rightmost(p, l + r, i) <==> Rightmost(p, l, i)
    {
      assert forall j :: 0 <= j < |l + r| ==> (l + r)[j] == if j < |l| then l[j] else r[j - |l|];
      if Rightmost(p, l, i) {
        assert Rightmost(p, l + r, i);
      }
      if Rightmost(p, l + r, i) {
        assert forall j :: i < j < |l| ==> l[j] == (l + r)[j];
      }
    }
  }
}
