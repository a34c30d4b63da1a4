/** Which side of a transaction is "local": the direction classifier. */
module Classifier {
  import opened IcmpTypes

  datatype Direction = LocalOnly | FromInside | FromOutside

  /** The scan over the local address list: true when some entry equals `ip`. */
  function InLocalList(c: Collaborators, localIps: seq<Ip>, ip: Ip): (found: bool)
    ensures found <==> exists j :: 0 <= j < |localIps| && c.ipEqual(ip, localIps[j])
    decreases |localIps|
  {
    if |localIps| == 0 then false
    else if c.ipEqual(ip, localIps[0]) then true
    else
      var rest := InLocalList(c, localIps[1..], ip);
      assert forall j :: 1 <= j < |localIps| ==> localIps[j] == localIps[1..][j - 1];
      rest
  }

  /** An address is local when it is a loopback address or equals an entry of `localIps`. */
  function IsLocalIp(c: Collaborators, localIps: seq<Ip>, ip: Ip): (local: bool)
    ensures local <==> c.isLoopback(ip) || exists j :: 0 <= j < |localIps| && c.ipEqual(ip, localIps[j])
    ensures |localIps| == 0 ==> (local <==> c.isLoopback(ip))
  {
    c.isLoopback(ip) || InLocalList(c, localIps, ip)
  }

  /** Direction of a transaction, judged on its tuple's source and destination. */
  function DirectionOf(c: Collaborators, localIps: seq<Ip>, t: Transaction): (d: Direction)
    ensures d == FromOutside <==> !IsLocalIp(c, localIps, t.tuple.srcIp)
    ensures d == FromInside <==>
      IsLocalIp(c, localIps, t.tuple.srcIp) && !IsLocalIp(c, localIps, t.tuple.dstIp)
    ensures d == LocalOnly <==>
      IsLocalIp(c, localIps, t.tuple.srcIp) && IsLocalIp(c, localIps, t.tuple.dstIp)
  {
    if !IsLocalIp(c, localIps, t.tuple.srcIp) then FromOutside
    else if !IsLocalIp(c, localIps, t.tuple.dstIp) then FromInside
    else LocalOnly
  }

  /** The same transaction seen with source and destination exchanged. */
  function Swapped(t: Transaction): Transaction
  {
    t.(tuple := t.tuple.(srcIp := t.tuple.dstIp, dstIp := t.tuple.srcIp))
  }

  /** Swapping the endpoints turns from-inside into from-outside and keeps local-only. */
  lemma SwappedDirection(c: Collaborators, localIps: seq<Ip>, t: Transaction)
    ensures DirectionOf(c, localIps, t) == FromInside ==>
      DirectionOf(c, localIps, Swapped(t)) == FromOutside
    ensures DirectionOf(c, localIps, Swapped(t)) == FromInside ==>
      DirectionOf(c, localIps, t) == FromOutside
    ensures DirectionOf(c, localIps, t) == LocalOnly <==>
      DirectionOf(c, localIps, Swapped(t)) == LocalOnly
  {
  }
}
