/** Host normalisation shared by both user-id generators:
    `website.replace(/^https?:\/\//, '').replace(/^www\./, '').split('/')[0]`. */
module Host {
  import opened Strings

  /** `s.replace(/^https?:\/\//, '')`: drops one leading `http://` or `https://`. */
  function StripScheme(s: string): (r: string)
    ensures StartsWith(s, "https://") ==> s == "https://" + r
    ensures StartsWith(s, "http://") ==> s == "http://" + r
    ensures !StartsWith(s, "https://") && !StartsWith(s, "http://") ==> r == s
  {
    if StartsWith(s, "https://") then
      assert s[4] == 's' && "http://"[4] == ':';
      s[8..]
    else if StartsWith(s, "http://") then s[7..]
    else s
  }

  /** `s.replace(/^www\./, '')`: drops one leading `www.`. */
  function StripWww(s: string): (r: string)
    ensures StartsWith(s, "www.") ==> s == "www." + r
    ensures !StartsWith(s, "www.") ==> r == s
  {
    if StartsWith(s, "www.") then s[4..] else s
  }

  /** `s.split('/')[0]`: the text before the first `/`, or all of `s`. */
  function BeforeSlash(s: string): (r: string)
    ensures '/' !in r
    ensures |r| <= |s| && s[..|r|] == r
    ensures |r| < |s| ==> s[|r|] == '/'
  {
    if s == [] || s[0] == '/' then []
    else [s[0]] + BeforeSlash(s[1..])
  }

  /** The normalised host the generated ids end with. */
  function CleanHost(website: string): (r: string)
    ensures '/' !in r
  {
    BeforeSlash(StripWww(StripScheme(website)))
  }

  /** `split('/')[0]` of a host followed by a path (or by nothing) is the host. */
  lemma {:induction false} BeforeSlashOfHostAndPath(host: string, path: string)
    requires '/' !in host
    requires path == [] || path[0] == '/'
    ensures BeforeSlash(host + path) == host
  {
    if host == [] {
      assert host + path == path;
    } else {
      assert (host + path)[0] == host[0];
      assert (host + path)[1..] == host[1..] + path;
      BeforeSlashOfHostAndPath(host[1..], path);
      assert [host[0]] + host[1..] == host;
    }
  }

  /** A host without `/` that does not start with `www.`, followed by a path,
      does not start with `www.` either. */
  lemma NoWwwBeforePath(host: string, path: string)
    requires '/' !in host && !StartsWith(host, "www.")
    requires path == [] || path[0] == '/'
    ensures !StartsWith(host + path, "www.")
  {
    var t := host + path;
    if |host| >= 4 {
      assert t[..4] == host[..4];
    } else if path != [] {
      assert t[|host|] == '/' && '/' !in "www.";
    }
  }

  /** Normalisation recovers the host from a URL made of a scheme, an optional
      `www.`, the host and a path: the generated id carries exactly the site's
      host name. */
  lemma CleanHostRecoversHost(scheme: string, www: bool, host: string, path: string)
    requires scheme == "http://" || scheme == "https://"
    requires '/' !in host
    requires !www ==> !StartsWith(host, "www.")
    requires path == [] || path[0] == '/'
    ensures CleanHost(scheme + (if www then "www." else "") + host + path) == host
  {
    var prefix := if www then "www." else "";
    var rest := prefix + host + path;
    var url := scheme + (if www then "www." else "") + host + path;
    assert url == scheme + rest;
    assert url[..|scheme|] == scheme;
    if scheme == "http://" {
      assert url[4] == ':' && "https://"[4] == 's';
    }
    assert StripScheme(url) == rest;
    if www {
      assert rest == "www." + (host + path);
      assert rest[..4] == "www.";
      assert StripWww(rest) == host + path;
    } else {
      assert rest == host + path;
      NoWwwBeforePath(host, path);
    }
    BeforeSlashOfHostAndPath(host, path);
  }

  /** A typical embedding URL: `https://www.example.com/widget` gives `example.com`. */
  lemma CleanHostExample()
    ensures CleanHost("https://www.example.com/widget") == "example.com"
  {
    var host := "example.com";
    assert forall i :: 0 <= i < |host| ==> host[i] != '/';
    assert "https://" + "www." + host + "/widget" == "https://www.example.com/widget";
    CleanHostRecoversHost("https://", true, host, "/widget");
  }
}
