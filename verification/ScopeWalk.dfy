/**
 The scope rules: a walk over the dot-suffixes of a domain, net lists for addresses, and
 plain lists for everything else.  The walk refines a statement about the rules alone: the
 longest matching rule decides, and permission wins a tie.
 */
module ScopeWalk {

  type Address = nat
  type Net = Address -> bool

  datatype ScopeLists = ScopeLists(
    allowedDomains: set<string>, blockedDomains: set<string>,
    allowedNets: seq<Net>, blockedNets: seq<Net>,
    allowedOther: map<string, set<string>>, blockedOther: map<string, set<string>>)

  datatype ParsedIP = NotAnIP | IP(address: Address)

  predicate IsDomainType(t: string) { t == "domain" || t == "subdomain" }
  predicate IsIPType(t: string) { t == "ip" || t == "ipv4" || t == "ipv6" || t == "ipv4_ambiguous" }

  /** The library functions that the rules are applied through. */
  datatype Library = Library(lower: string -> string, parseIP: string -> ParsedIP)

  // ------------------------------------------------------------ what the rules say

  /** A dot-rule matches a name that ends with it. */
  predicate Ends(name: string, rule: string) {
    rule != "" && rule[0] == '.' && |rule| <= |name| && name[|name| - |rule|..] == rule
  }

  ghost predicate AllowedName(lists: ScopeLists, name: string) {
    exists a :: a in lists.allowedDomains && Ends(name, a)
  }

  /** Some blocked rule matches and is strictly longer than every allowed rule that matches. */
  ghost predicate BlockedName(lists: ScopeLists, name: string) {
    exists b :: b in lists.blockedDomains && Ends(name, b) && Longest(lists, name, b)
  }

  ghost predicate Longest(lists: ScopeLists, name: string, b: string) {
    forall a :: a in lists.allowedDomains && Ends(name, a) ==> |a| < |b|
  }

  predicate InNets(nets: seq<Net>, ip: Address) {
    exists i :: 0 <= i < |nets| && nets[i](ip)
  }

  predicate OnList(m: map<string, set<string>>, t: string, v: string) {
    t in m && v in m[t]
  }

  ghost predicate ExplicitlyAllowed(lists: ScopeLists, lib: Library, t: string, v: string) {
    if IsDomainType(t) then AllowedName(lists, "." + lib.lower(v))
    else if IsIPType(t) then lib.parseIP(lib.lower(v)).IP?
                             && InNets(lists.allowedNets, lib.parseIP(lib.lower(v)).address)
    else OnList(lists.allowedOther, t, lib.lower(v))
  }

  ghost predicate OutOfScope(lists: ScopeLists, lib: Library, t: string, v: string) {
    if IsDomainType(t) then BlockedName(lists, "." + lib.lower(v))
    else if IsIPType(t) then
      lib.parseIP(lib.lower(v)).IP? && InNets(lists.blockedNets, lib.parseIP(lib.lower(v)).address)
          && !InNets(lists.allowedNets, lib.parseIP(lib.lower(v)).address)
    else OnList(lists.blockedOther, t, lib.lower(v)) && !OnList(lists.allowedOther, t, lib.lower(v))
  }

  // ------------------------------------------------------------ the walks

  /** The first dot after the leading character. */
  method NextDot(current: string) returns (idx: int)
    requires current != ""
    ensures -1 <= idx < |current| - 1
    ensures idx == -1 ==> forall k :: 1 <= k < |current| ==> current[k] != '.'
    ensures idx >= 0 ==> current[idx + 1] == '.' && forall k :: 1 <= k < idx + 1 ==> current[k] != '.'
  {
    idx := 0;
    while idx < |current| - 1
      invariant 0 <= idx <= |current| - 1
      invariant forall k :: 1 <= k < idx + 1 ==> current[k] != '.'
    {
      if current[idx + 1] == '.' {
        return;
      }
      idx := idx + 1;
    }
    idx := -1;
  }

  /** `current` is the dot-suffix at `p`, and no longer dot-suffix is in either set. */
  ghost predicate Walked(name: string, current: string, p: nat, seen: set<string>) {
    && p < |name| && name[p] == '.' && current == name[p..]
    && forall q :: 0 <= q < p && name[q] == '.' ==> name[q..] !in seen
  }

  lemma WalkStep(name: string, current: string, p: nat, seen: set<string>, idx: nat)
    requires Walked(name, current, p, seen) && current !in seen
    requires idx < |current| - 1 && current[idx + 1] == '.' && forall k :: 1 <= k < idx + 1 ==> current[k] != '.'
    ensures current[idx + 1..] != ""
    ensures Walked(name, current[idx + 1..], p + idx + 1, seen)
  {
    assert forall q :: p <= q < |name| ==> name[q] == current[q - p];
  }

  lemma WalkEnd(name: string, current: string, p: nat, seen: set<string>, rule: string)
    requires Walked(name, current, p, seen) && current !in seen
    requires forall k :: 1 <= k < |current| ==> current[k] != '.'
    requires Ends(name, rule)
    ensures rule !in seen
  {
    var q := |name| - |rule|;
    assert name[q] == '.' && name[q..] == rule;
    assert forall k :: p <= k < |name| ==> name[k] == current[k - p];
  }

  /** A matching rule that has not been passed yet is no longer than the current suffix. */
  lemma RuleAhead(name: string, current: string, p: nat, seen: set<string>, rule: string)
    requires Walked(name, current, p, seen) && rule in seen && Ends(name, rule)
    ensures |rule| <= |current|
  {
    var q := |name| - |rule|;
    assert name[q] == '.' && name[q..] == rule;
  }

  lemma WalkBegins(name: string, seen: set<string>)
    requires name != "" && name[0] == '.'
    ensures Walked(name, name, 0, seen)
  {
  }

  lemma AllowedFirst(lists: ScopeLists, name: string, current: string, p: nat)
    requires Walked(name, current, p, lists.allowedDomains + lists.blockedDomains) && current in lists.allowedDomains
    ensures !BlockedName(lists, name)
  {
    assert Ends(name, current);
    forall b | b in lists.blockedDomains && Ends(name, b) ensures !Longest(lists, name, b) {
      RuleAhead(name, current, p, lists.allowedDomains + lists.blockedDomains, b);
    }
  }

  lemma BlockedFirst(lists: ScopeLists, name: string, current: string, p: nat)
    requires Walked(name, current, p, lists.allowedDomains + lists.blockedDomains)
    requires current in lists.blockedDomains && current !in lists.allowedDomains
    ensures BlockedName(lists, name)
  {
    assert Ends(name, current);
    forall a | a in lists.allowedDomains && Ends(name, a) ensures |a| < |current| {
      RuleAhead(name, current, p, lists.allowedDomains + lists.blockedDomains, a);
      assert a != current;
    }
    assert Longest(lists, name, current);
  }

  lemma NothingMatches(lists: ScopeLists, name: string, current: string, p: nat)
    requires Walked(name, current, p, lists.allowedDomains + lists.blockedDomains)
    requires current !in lists.allowedDomains + lists.blockedDomains
    requires forall k :: 1 <= k < |current| ==> current[k] != '.'
    ensures !BlockedName(lists, name)
  {
    forall b | b in lists.blockedDomains ensures !Ends(name, b) {
      if Ends(name, b) {
        WalkEnd(name, current, p, lists.allowedDomains + lists.blockedDomains, b);
      }
    }
  }

  method DomainOutOfScope(lists: ScopeLists, value: string) returns (blocked: bool)
    ensures blocked <==> BlockedName(lists, "." + value)
  {
    var name := "." + value;
    var current := name;
    ghost var p := 0;
    ghost var rules := lists.allowedDomains + lists.blockedDomains;
    hide Walked, BlockedName;
    WalkBegins(name, rules);
    while true
      invariant current != "" && Walked(name, current, p, rules)
      decreases |current|
    {
      if current in lists.allowedDomains {
        AllowedFirst(lists, name, current, p);
        return false;
      }
      if current in lists.blockedDomains {
        BlockedFirst(lists, name, current, p);
        return true;
      }
      var idx := NextDot(current);
      if idx == -1 {
        NothingMatches(lists, name, current, p);
        return false;
      }
      WalkStep(name, current, p, rules, idx);
      current, p := current[idx + 1..], p + idx + 1;
    }
  }

  method DomainAllowed(lists: ScopeLists, value: string) returns (allowed: bool)
    ensures allowed <==> AllowedName(lists, "." + value)
  {
    var name := "." + value;
    var current := name;
    ghost var p := 0;
    while true
      invariant Walked(name, current, p, lists.allowedDomains)
      decreases |current|
    {
      if current in lists.allowedDomains {
        assert Ends(name, current);
        return true;
      }
      var idx := NextDot(current);
      if idx == -1 {
        forall a | a in lists.allowedDomains ensures !Ends(name, a) {
          if Ends(name, a) {
            WalkEnd(name, current, p, lists.allowedDomains, a);
          }
        }
        return false;
      }
      WalkStep(name, current, p, lists.allowedDomains, idx);
      current, p := current[idx + 1..], p + idx + 1;
    }
  }

  method AnyNet(nets: seq<Net>, ip: Address) returns (found: bool)
    ensures found <==> InNets(nets, ip)
  {
    for i := 0 to |nets|
      invariant forall k :: 0 <= k < i ==> !nets[k](ip)
    {
      if nets[i](ip) {
        return true;
      }
    }
    found := false;
  }

  method IsOutOfScope(lists: ScopeLists, lib: Library, t: string, v: string) returns (out: bool)
    ensures out <==> OutOfScope(lists, lib, t, v)
  {
    var value := lib.lower(v);
    if IsDomainType(t) {
      out := DomainOutOfScope(lists, value);
    } else if IsIPType(t) {
      match lib.parseIP(value)
      case NotAnIP => out := false;
      case IP(ip) =>
        var allowed := AnyNet(lists.allowedNets, ip);
        if allowed {
          return false;
        }
        out := AnyNet(lists.blockedNets, ip);
    } else {
      if OnList(lists.allowedOther, t, value) {
        return false;
      }
      out := OnList(lists.blockedOther, t, value);
    }
  }

  method IsExplicitlyAllowed(lists: ScopeLists, lib: Library, t: string, v: string) returns (allowed: bool)
    ensures allowed <==> ExplicitlyAllowed(lists, lib, t, v)
  {
    var value := lib.lower(v);
    if IsDomainType(t) {
      allowed := DomainAllowed(lists, value);
    } else if IsIPType(t) {
      match lib.parseIP(value)
      case NotAnIP => allowed := false;
      case IP(ip) => allowed := AnyNet(lists.allowedNets, ip);
    } else {
      allowed := OnList(lists.allowedOther, t, value);
    }
  }

  // ------------------------------------------------------------ consequences

  lemma EndsTransfers(prefix: string, name: string, rule: string)
    requires Ends(name, rule)
    ensures Ends(prefix + name, rule)
  {
    assert (prefix + name)[|prefix + name| - |rule|..] == name[|name| - |rule|..];
  }

  lemma EndsWithin(prefix: string, name: string, rule: string)
    requires Ends(prefix + name, rule) && |rule| <= |name|
    ensures Ends(name, rule)
  {
    assert (prefix + name)[|prefix + name| - |rule|..] == name[|name| - |rule|..];
  }

  /** What lies under a blocked name is blocked too, unless an allowed rule reaches below that name. */
  lemma BlockedBelow(lists: ScopeLists, prefix: string, name: string)
    requires BlockedName(lists, name)
    requires forall a :: a in lists.allowedDomains && Ends(prefix + name, a) ==> |a| <= |name|
    ensures BlockedName(lists, prefix + name)
  {
    var b :| b in lists.blockedDomains && Ends(name, b) && Longest(lists, name, b);
    EndsTransfers(prefix, name, b);
    forall a | a in lists.allowedDomains && Ends(prefix + name, a) ensures |a| < |b| {
      EndsWithin(prefix, name, a);
    }
    assert Longest(lists, prefix + name, b);
  }
}
