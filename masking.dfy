/**
 * The privacy mask both `Subscription` and `ApiRequest` apply to a stored client
 * address (`getMaskedIpAttribute`): the third IPv4 octet, or every IPv6 group after the
 * third, is replaced by `***`.
 */
module Masking {
  import opened Text
  import opened Foreign

  /** `$parts[$i]`; an index past the end reads as "" (PHP's null in a concatenation). */
  function Part(parts: seq<string>, i: nat): string {
    if i < |parts| then parts[i] else ""
  }

  /** `getMaskedIpAttribute`: falsy -> "Unknown", IPv4, then IPv6, otherwise "Unknown". */
  function MaskIp(f: Oracles, ip: string): (r: string)
    ensures r == "Unknown" <==> Falsy(ip) || (!f.isIpv4(ip) && !f.isIpv6(ip))
  {
    if Falsy(ip) then "Unknown"
    else if f.isIpv4(ip) then
      var parts := Explode('.', ip);
      var r := Part(parts, 0) + "." + Part(parts, 1) + ".***." + Part(parts, 3);
      assert r[|r| - |Part(parts, 3)| - 2] == '*';
      r
    else if f.isIpv6(ip) then
      var parts := Explode(':', ip);
      var r := Implode(':', parts[..if |parts| < 3 then |parts| else 3]) + ":***";
      assert r[|r| - 1] == '*';
      r
    else "Unknown"
  }

  /** For a dotted quad a.b.c.d the mask keeps octets 1, 2 and 4 and hides octet 3. */
  lemma Ipv4Mask(f: Oracles, a: string, b: string, c: string, d: string)
    requires '.' !in a && '.' !in b && '.' !in c && '.' !in d
    requires f.isIpv4(a + "." + b + "." + c + "." + d)
    ensures MaskIp(f, a + "." + b + "." + c + "." + d) == a + "." + b + ".***." + d
  {
    var ip := a + "." + b + "." + c + "." + d;
    assert ip == Implode('.', [a, b, c, d]) by {
      assert Implode('.', [b, c, d]) == b + "." + Implode('.', [c, d]);
      assert Implode('.', [c, d]) == c + "." + d;
    }
    ExplodeImplode('.', [a, b, c, d]);
    assert |ip| >= 3;
  }

  /** For an IPv6 address a:b:c:rest the mask keeps the first three groups and hides the rest. */
  lemma Ipv6Mask(f: Oracles, a: string, b: string, c: string, rest: string)
    requires ':' !in a && ':' !in b && ':' !in c
    requires !f.isIpv4(a + ":" + b + ":" + c + ":" + rest) && f.isIpv6(a + ":" + b + ":" + c + ":" + rest)
    ensures MaskIp(f, a + ":" + b + ":" + c + ":" + rest) == a + ":" + b + ":" + c + ":***"
  {
    var ip := a + ":" + b + ":" + c + ":" + rest;
    ExplodeThree(a, b, c, rest);
    assert Explode(':', ip)[..3] == [a, b, c];
    assert Implode(':', [a, b, c]) == a + ":" + b + ":" + c by {
      assert Implode(':', [b, c]) == b + ":" + c;
    }
    assert |ip| >= 3;
  }

  /** Splitting a:b:c:rest on ':' gives the three groups, then the pieces of rest. */
  lemma ExplodeThree(a: string, b: string, c: string, rest: string)
    requires ':' !in a && ':' !in b && ':' !in c
    ensures Explode(':', a + ":" + b + ":" + c + ":" + rest) == [a, b, c] + Explode(':', rest)
  {
    var r2 := c + [':'] + rest;
    var r1 := b + [':'] + r2;
    calc {
      Explode(':', a + ":" + b + ":" + c + ":" + rest);
      { assert a + ":" + b + ":" + c + ":" + rest == a + [':'] + r1; }
      Explode(':', a + [':'] + r1);
      { ExplodeConcat(':', a, r1); }
      [a] + Explode(':', r1);
      { ExplodeConcat(':', b, r2); }
      [a] + ([b] + Explode(':', r2));
      { ExplodeConcat(':', c, rest); }
      [a] + ([b] + ([c] + Explode(':', rest)));
      [a, b, c] + Explode(':', rest);
    }
  }

  /** An IPv6 address with at most three groups is shown whole, followed by ":***". */
  lemma Ipv6MaskShort(f: Oracles, ip: string)
    requires !Falsy(ip) && !f.isIpv4(ip) && f.isIpv6(ip)
    requires |Explode(':', ip)| <= 3
    ensures MaskIp(f, ip) == ip + ":***"
  {
    var parts := Explode(':', ip);
    assert parts[..|parts|] == parts;
    ImplodeExplode(':', ip);
  }
}
