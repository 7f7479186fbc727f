/** Splitting and joining host:port strings as the net package does, with its order of checks. */
module HostPort {
  import opened Wrappers
  import opened Decimal

  datatype AddressError = MissingPort | MissingBracket | TooManyColons | UnexpectedOpen | UnexpectedClose | BadPort

  function FirstIndex(s: string, c: char): (i: Option<nat>)
    ensures i.Some? ==> i.value < |s| && s[i.value] == c && forall j :: 0 <= j < i.value ==> s[j] != c
    ensures i.None? <==> c !in s
  {
    if s == "" then None
    else if s[0] == c then Some(0)
    else match FirstIndex(s[1..], c)
      case None => None
      case Some(k) => Some(k + 1)
  }

  function LastIndex(s: string, c: char): (i: Option<nat>)
    ensures i.Some? ==> i.value < |s| && s[i.value] == c && forall j :: i.value < j < |s| ==> s[j] != c
    ensures i.None? <==> c !in s
  {
    if s == "" then None
    else if s[|s| - 1] == c then Some(|s| - 1)
    else LastIndex(s[..|s| - 1], c)
  }

  function SplitHostPort(s: string): Result<(string, string), AddressError> {
    match LastIndex(s, ':')
    case None => Failure(MissingPort)
    case Some(i) =>
      if s[0] == '[' then
        match FirstIndex(s, ']')
        case None => Failure(MissingBracket)
        case Some(end) =>
          if end + 1 == |s| then Failure(MissingPort)
          else if end + 1 != i then Failure(if s[end + 1] == ':' then TooManyColons else MissingPort)
          else if '[' in s[1..] then Failure(UnexpectedOpen)
          else if ']' in s[end + 1..] then Failure(UnexpectedClose)
          else Success((s[1..end], s[i + 1..]))
      else if ':' in s[..i] then Failure(TooManyColons)
      else if '[' in s then Failure(UnexpectedOpen)
      else if ']' in s then Failure(UnexpectedClose)
      else Success((s[..i], s[i + 1..]))
  }

  function JoinHostPort(host: string, port: string): string {
    if ':' in host then "[" + host + "]:" + port else host + ":" + port
  }

  ghost predicate Plain(s: string) {
    '[' !in s && ']' !in s
  }

  lemma LastIndexIs(s: string, c: char, i: nat)
    requires i < |s| && s[i] == c && forall j :: i < j < |s| ==> s[j] != c
    ensures LastIndex(s, c) == Some(i)
  {
  }

  lemma FirstIndexIs(s: string, c: char, i: nat)
    requires i < |s| && s[i] == c && forall j :: 0 <= j < i ==> s[j] != c
    ensures FirstIndex(s, c) == Some(i)
  {
  }

  /** The colon before the port is the last one. */
  lemma ColonAt(front: string, port: string)
    requires ':' !in port
    ensures var s := front + ":" + port;
      LastIndex(s, ':') == Some(|front|) && s[..|front|] == front && s[|front| + 1..] == port
  {
    var s := front + ":" + port;
    forall j | |front| < j < |s|
      ensures s[j] != ':'
    {
      assert s[j] == port[j - |front| - 1];
    }
    LastIndexIs(s, ':', |front|);
  }

  lemma SplitJoinNamed(host: string, port: string)
    requires ':' !in port && Plain(port) && ':' !in host
    ensures SplitHostPort(host + ":" + port) == Success((host, port)) <==> Plain(host)
  {
    hide LastIndex, FirstIndex;
    var s := host + ":" + port;
    ColonAt(host, port);
    assert forall k :: 0 <= k < |host| ==> s[k] == host[k];
    if Plain(host) {
      assert s[0] != '[';
      assert forall k :: 0 <= k < |port| ==> s[|host| + 1 + k] == port[k];
    } else if host[0] != '[' {
      var k :| 0 <= k < |host| && host[k] in {'[', ']'};
      assert s[k] in {'[', ']'};
    }
  }

  ghost predicate IsBracketed(s: string, host: string, port: string) {
    && |s| == |host| + |port| + 3
    && s[0] == '[' && s[|host| + 1] == ']' && s[|host| + 2] == ':'
    && s[1..|host| + 1] == host && s[|host| + 3..] == port
  }

  lemma JoinIsBracketed(host: string, port: string)
    requires ':' in host
    ensures IsBracketed(JoinHostPort(host, port), host, port)
  {
  }

  lemma BracketedIndex(s: string, host: string, port: string)
    requires IsBracketed(s, host, port) && ':' !in port
    ensures LastIndex(s, ':') == Some(|host| + 2)
    ensures
      if ']' in host then FirstIndex(s, ']').Some? && FirstIndex(s, ']').value <= |host|
      else FirstIndex(s, ']') == Some(|host| + 1)
  {
    hide LastIndex, FirstIndex;
    forall j | |host| + 2 < j < |s|
      ensures s[j] != ':'
    {
      assert s[j] == s[|host| + 3..][j - |host| - 3];
    }
    LastIndexIs(s, ':', |host| + 2);
    assert forall k :: 1 <= k <= |host| ==> s[k] == host[k - 1] by {
      forall k | 1 <= k <= |host| ensures s[k] == host[k - 1] { assert s[k] == s[1..|host| + 1][k - 1]; }
    }
    if ']' in host {
      var k :| 0 <= k < |host| && host[k] == ']';
      assert s[k + 1] == ']';
    } else {
      forall k | 0 <= k < |host| + 1
        ensures s[k] != ']'
      {
        assert k > 0 ==> s[k] == s[1..|host| + 1][k - 1];
      }
      FirstIndexIs(s, ']', |host| + 1);
    }
  }

  lemma BracketedTail(s: string, host: string, port: string)
    requires IsBracketed(s, host, port) && Plain(port)
    ensures '[' in s[1..] <==> '[' in host
    ensures ']' !in s[|host| + 2..]
  {
    assert s[1..] == s[1..|host| + 1] + [']', ':'] + s[|host| + 3..];
    assert s[|host| + 2..] == [':'] + s[|host| + 3..];
  }

  lemma SplitJoinBracketed(s: string, host: string, port: string)
    requires IsBracketed(s, host, port) && ':' !in port && Plain(port)
    ensures SplitHostPort(s) == Success((host, port)) <==> Plain(host)
  {
    hide LastIndex, FirstIndex;
    BracketedIndex(s, host, port);
    BracketedTail(s, host, port);
  }

  /** Joining and splitting again gives host and port back exactly for hosts without brackets, be
      they names, IPv4 addresses or IPv6 addresses. */
  lemma SplitJoinIff(host: string, port: string)
    requires ':' !in port && Plain(port)
    ensures SplitHostPort(JoinHostPort(host, port)) == Success((host, port)) <==> Plain(host)
  {
    hide SplitHostPort, Plain, IsBracketed;
    if ':' in host {
      JoinIsBracketed(host, port);
      SplitJoinBracketed(JoinHostPort(host, port), host, port);
    } else {
      SplitJoinNamed(host, port);
    }
  }

  /** What a successful split yields. */
  lemma SplitParts(s: string)
    requires SplitHostPort(s).Success?
    ensures var (host, port) := SplitHostPort(s).value;
      Plain(host) && Plain(port) && ':' !in port
  {
    var i := LastIndex(s, ':').value;
    var (host, port) := SplitHostPort(s).value;
    if s[0] == '[' {
      var end := FirstIndex(s, ']').value;
      assert forall k :: 0 <= k < |host| ==> host[k] == s[1..][k] && host[k] == s[k + 1];
      assert forall k :: 0 <= k < |port| ==> port[k] == s[1..][i + k] && port[k] == s[end + 1..][k + 1];
    } else {
      assert forall k :: 0 <= k < |host| ==> host[k] == s[k];
      assert forall k :: 0 <= k < |port| ==> port[k] == s[i + 1 + k];
    }
  }

  /** A string splits into exactly one host and port: plain ones with the last colon between them, the host
      in brackets if it has colons of its own - or if it was written so. */
  lemma SplitIff(s: string, host: string, port: string)
    ensures SplitHostPort(s) == Success((host, port)) <==>
            && Plain(host) && Plain(port) && ':' !in port
            && (s == "[" + host + "]:" + port || (':' !in host && s == host + ":" + port))
  {
    hide SplitHostPort, Plain;
    if SplitHostPort(s) == Success((host, port)) {
      SplitParts(s);
      SplitShape(s);
    }
    if Plain(host) && Plain(port) && ':' !in port {
      if s == "[" + host + "]:" + port {
        WrittenBracketed(s, host, port);
        SplitJoinBracketed(s, host, port);
      } else if ':' !in host && s == host + ":" + port {
        SplitJoinNamed(host, port);
      }
    }
  }

  lemma WrittenBracketed(s: string, host: string, port: string)
    requires s == "[" + host + "]:" + port
    ensures IsBracketed(s, host, port)
  {
  }

  lemma SplitShape(s: string)
    requires SplitHostPort(s).Success?
    ensures var (host, port) := SplitHostPort(s).value;
      s == "[" + host + "]:" + port || (':' !in host && s == host + ":" + port)
  {
    hide LastIndex, FirstIndex;
    var i := LastIndex(s, ':').value;
    if s[0] == '[' {
      var end := FirstIndex(s, ']').value;
      assert s == "[" + s[1..end] + "]:" + s[i + 1..];
    } else {
      assert s == s[..i] + ":" + s[i + 1..];
    }
  }

  /** What is reported for the commonest mistakes. */
  lemma SplitErrors(s: string)
    ensures ':' !in s ==> SplitHostPort(s) == Failure(MissingPort)
    ensures ':' in s && s[0] == '[' && ']' !in s ==> SplitHostPort(s) == Failure(MissingBracket)
    ensures ':' in s && s[0] != '[' && (exists i, j :: 0 <= i < j < |s| && s[i] == s[j] == ':') ==>
      SplitHostPort(s) == Failure(TooManyColons)
  {
    hide LastIndex, FirstIndex;
    if ':' in s && s[0] != '[' {
      var k := LastIndex(s, ':').value;
      if i, j :| 0 <= i < j < |s| && s[i] == s[j] == ':' {
        assert s[..k][i] == ':';
      }
    }
  }

  /** Behind a closing bracket comes a colon and a port without colons. */
  lemma BracketErrors(s: string, end: nat)
    requires ':' in s && s[0] == '[' && end < |s| && s[end] == ']' && forall j :: 0 <= j < end ==> s[j] != ']'
    ensures end + 1 == |s| || s[end + 1] != ':' ==> SplitHostPort(s) == Failure(MissingPort)
    ensures end + 1 < |s| && s[end + 1] == ':' && ':' in s[end + 2..] ==> SplitHostPort(s) == Failure(TooManyColons)
  {
    hide LastIndex, FirstIndex;
    FirstIndexIs(s, ']', end);
    if end + 1 < |s| && s[end + 1] == ':' && ':' in s[end + 2..] {
      var k :| 0 <= k < |s[end + 2..]| && s[end + 2..][k] == ':';
      assert s[end + 2 + k] == ':';
    }
  }

  // ---------- with a numeric port ----------

  function Itoa(n: int): string {
    if n < 0 then "-" + Print(-n) else Print(n)
  }

  function SplitAddress(addr: string): Result<(string, int), AddressError> {
    match SplitHostPort(addr)
    case Failure(e) => Failure(e)
    case Success((host, portText)) =>
      match Atoi(portText)
      case None => Failure(BadPort)
      case Some(port) => if port <= 0 || port > 65535 then Failure(BadPort) else Success((host, port))
  }

  function JoinAddress(host: string, port: int): string {
    JoinHostPort(host, Itoa(port))
  }

  lemma ItoaFacts(n: int)
    ensures Atoi(Itoa(n)) == Some(n)
    ensures ':' !in Itoa(n) && Plain(Itoa(n))
  {
    if n < 0 {
      PrintThenValue(-n);
      assert Itoa(n)[1..] == Print(-n);
    } else {
      PrintThenAtoi(n);
    }
  }

  lemma AddressRoundTripIff(host: string, port: int)
    ensures SplitAddress(JoinAddress(host, port)) == Success((host, port)) <==> Plain(host) && 1 <= port <= 65535
  {
    ItoaFacts(port);
    SplitJoinIff(host, Itoa(port));
    if SplitAddress(JoinAddress(host, port)) == Success((host, port)) {
      SplitParts(JoinAddress(host, port));
    }
  }

  /** Every address that splits is normalised by joining the parts: splitting that gives them back. */
  lemma SplitIsStable(addr: string)
    requires SplitAddress(addr).Success?
    ensures var (host, port) := SplitAddress(addr).value;
      SplitAddress(JoinAddress(host, port)) == Success((host, port))
  {
    SplitParts(addr);
    var (host, port) := SplitAddress(addr).value;
    AddressRoundTripIff(host, port);
  }
}
