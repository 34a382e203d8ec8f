/** Deterministic names: the truncation of a pod name and an interface name
    into a Linux host interface name (IFNAMSIZ allows 15 characters plus the
    terminating NUL), and the decimal rendering of ids inside names. Strings
    are sequences of ASCII characters, one element per character. */
module Naming {

  /** The longest Linux interface name: IFNAMSIZ (16) less the NUL. */
  const MaxHostNameLength: nat := 15

  function Min(a: nat, b: nat): nat { if a <= b then a else b }

  /** The first n characters of s followed by its last m, or s itself when it
      is no longer than n + m. */
  function FirstNLastM(n: nat, m: nat, s: string): (r: string)
  {
    if |s| <= n + m then s else s[..n] + s[|s| - m..]
  }

  /** `stringFirstNLastM`: builds the result with two counted append loops. */
  method StringFirstNLastM(n: nat, m: nat, str: string) returns (outStr: string)
    ensures |str| <= n + m ==> outStr == str
    ensures |str| > n + m ==> |outStr| == n + m && outStr[..n] == str[..n] && outStr[n..] == str[|str| - m..]
    ensures outStr == FirstNLastM(n, m, str)
  {
    if |str| <= n + m {
      return str;
    }
    outStr := "";
    var i := 0;
    while i < n
      invariant 0 <= i <= n
      invariant outStr == str[..i]
    {
      outStr := outStr + [str[i]];
      i := i + 1;
    }
    i := 0;
    while i < m
      invariant 0 <= i <= m
      invariant outStr == str[..n] + str[|str| - m..|str| - m + i]
    {
      outStr := outStr + [str[|str| - m + i]];
      i := i + 1;
    }
  }

  /** Extra (leading, trailing) characters granted to the port name when the
      container name is shorter than its budget of 8. */
  function PortBonus(containerLen: nat): (nat, nat)
  {
    match containerLen
    case 7 => (1, 0)
    case 6 => (1, 1)
    case 5 => (2, 1)
    case 4 => (2, 2)
    case 3 => (3, 2)
    case 2 => (3, 3)
    case 1 => (4, 3)
    case _ => (0, 0)
  }

  /** Extra (leading, trailing) characters granted to the container name when
      the port name is shorter than its budget of 7. */
  function ContainerBonus(portLen: nat): (nat, nat)
  {
    match portLen
    case 6 => (1, 0)
    case 5 => (1, 1)
    case 4 => (2, 1)
    case 3 => (2, 2)
    case 2 => (3, 2)
    case 1 => (3, 3)
    case _ => (0, 0)
  }

  /** `constructBaseHostName`: 4 leading and 4 trailing characters of the
      container name, 3 leading and 4 trailing of the port name, with the
      budget a short name leaves unused handed to the other name. */
  function ConstructBaseHostName(container: string, port: string): (r: string)
    ensures |r| <= MaxHostNameLength
  {
    var cb := 4 + ContainerBonus(|port|).0;
    var ce := 4 + ContainerBonus(|port|).1;
    var pb := 3 + PortBonus(|container|).0;
    var pe := 4 + PortBonus(|container|).1;
    FirstNLastM(cb, ce, container) + FirstNLastM(pb, pe, port)
  }

  /** The 15-character budget is used in full whenever the two names together
      are at least that long; otherwise nothing is dropped. An empty name
      leaves the other one at its default budget. */
  lemma {:induction false} HostNameLength(container: string, port: string)
    ensures |container| >= 1 && |port| >= 1 ==>
              |ConstructBaseHostName(container, port)| == Min(MaxHostNameLength, |container| + |port|)
    ensures |container| == 0 ==> |ConstructBaseHostName(container, port)| == Min(|port|, 7)
    ensures |port| == 0 ==> |ConstructBaseHostName(container, port)| == Min(|container|, 8)
  {
  }

  /** A container name shorter than 8 characters is the host name's prefix in
      full, and a port name shorter than 7 its suffix in full. */
  lemma {:induction false} HostNameKeepsShortNames(container: string, port: string)
    ensures var r := ConstructBaseHostName(container, port);
            (|container| < 8 ==> |container| <= |r| && r[..|container|] == container) &&
            (|port| < 7 ==> |port| <= |r| && r[|r| - |port|..] == port)
  {
  }

  /** With both names at least as long as their budgets, the host name is the
      default scheme: 4 + 4 characters of the container, 3 + 4 of the port. */
  lemma {:induction false} HostNameDefaultScheme(container: string, port: string)
    requires |container| >= 8 && |port| >= 7
    ensures ConstructBaseHostName(container, port) ==
            container[..4] + container[|container| - 4..] + port[..3] + port[|port| - 4..]
  {
    assert ContainerBonus(|port|) == (0, 0);
    assert PortBonus(|container|) == (0, 0);
    assert FirstNLastM(4, 4, container) == container[..4] + container[|container| - 4..];
    assert FirstNLastM(3, 4, port) == port[..3] + port[|port| - 4..];
  }

  function DigitChar(d: nat): char
    requires d < 10
  {
    "0123456789"[d]
  }

  /** The decimal rendering of a natural number, as `%d` formats it. */
  function NatToString(n: nat): (s: string)
    ensures |s| >= 1
    ensures forall i :: 0 <= i < |s| ==> '0' <= s[i] <= '9'
    decreases n
  {
    if n < 10 then [DigitChar(n)] else NatToString(n / 10) + [DigitChar(n % 10)]
  }
}
