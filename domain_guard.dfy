/** The domain access guard of the content script: a host matches a list entry
    when it is the entry or a subdomain of it; a run is refused on a denylisted
    host, and on a host outside a non-empty allowlist. */
module DomainGuard {
  import opened Text

  /** `hostname === domain || hostname.endsWith("." + domain)`. */
  predicate DomainMatches(domain: string, host: string) {
    host == domain || EndsWith(host, "." + domain)
  }

  /** `matchesDomainList(list, hostname)`, that is `list.some(…)`. */
  function MatchesDomainList(list: seq<string>, host: string): (r: bool)
    ensures r <==> exists d :: d in list && DomainMatches(d, host)
  {
    if list == [] then false
    else
      assert forall d :: d in list <==> d == list[0] || d in list[1..];
      DomainMatches(list[0], host) || MatchesDomainList(list[1..], host)
  }

  /** `checkDomainAccess`: a denylist match refuses; otherwise a non-empty allowlist
      must match. */
  function CheckDomainAccess(allowlist: seq<string>, denylist: seq<string>, host: string): (r: bool)
    ensures r <==>
      && !(exists d :: d in denylist && DomainMatches(d, host))
      && (allowlist == [] || exists d :: d in allowlist && DomainMatches(d, host))
  {
    if |denylist| > 0 && MatchesDomainList(denylist, host) then false
    else if |allowlist| > 0 && !MatchesDomainList(allowlist, host) then false
    else true
  }

  /** The denylist takes precedence: a denylisted host is refused even when it is allowlisted. */
  lemma DenylistWins(allowlist: seq<string>, denylist: seq<string>, host: string)
    requires MatchesDomainList(denylist, host) && MatchesDomainList(allowlist, host)
    ensures !CheckDomainAccess(allowlist, denylist, host)
  {
  }

  /** With both lists empty every host is allowed. */
  lemma EmptyListsAllowAll(host: string)
    ensures CheckDomainAccess([], [], host)
  {
  }

  /** A match is on a label boundary: a host made of `domain` preceded by something
      that does not end in "." does not match `domain`. */
  lemma {:induction false} NoPartialLabelMatch(domain: string, prefix: string)
    requires prefix != [] && prefix[|prefix| - 1] != '.'
    ensures !DomainMatches(domain, prefix + domain)
  {
    var host := prefix + domain;
    var dot := "." + domain;
    assert |host| - |dot| == |prefix| - 1;
    assert host[|prefix| - 1] == prefix[|prefix| - 1];
    assert host[|host| - |dot|..][0] != dot[0];
  }

  /** A subdomain matches its parent entry, and a name that merely ends with the
      entry's text does not. */
  lemma SubdomainExamples()
    ensures DomainMatches("example.com", "app.example.com")
    ensures !DomainMatches("example.com", "notexample.com")
  {
    assert "app.example.com" == "app" + ".example.com";
    assert "app.example.com"[|"app.example.com"| - |".example.com"|..] == ".example.com";
    assert "notexample.com" == "not" + "example.com";
    NoPartialLabelMatch("example.com", "not");
  }
}
