/** Server URLs, taken apart as appendix B of RFC 3986 does. */
module ServerURLs {
  import opened Wrappers
  import opened Paths
  import opened ClusterPaths

  // ---- percent decoding, section 2.1 of RFC 3986

  predicate IsHex(c: char) {
    '0' <= c <= '9' || 'a' <= c <= 'f' || 'A' <= c <= 'F'
  }

  function HexValue(c: char): (n: nat)
    requires IsHex(c)
    ensures n < 16
  {
    if c <= '9' then (c - '0') as int else if c <= 'F' then (c - 'A') as int + 10 else (c - 'a') as int + 10
  }

  function Joined(a: Option<string>, b: Option<string>): Option<string> {
    if a.Some? && b.Some? then Some(a.value + b.value) else None
  }

  lemma JoinedThrice(a: Option<string>, b: Option<string>, c: Option<string>)
    ensures Joined(a, Joined(b, c)) == Joined(Joined(a, b), c)
  {
    if a.Some? && b.Some? && c.Some? {
      assert a.value + (b.value + c.value) == a.value + b.value + c.value;
    }
  }

  /** Nothing for a percent sign without two hexadecimal digits behind it. */
  function Unescape(s: string): (r: Option<string>)
    ensures r.Some? ==> |r.value| <= |s|
  {
    if s == "" then Some("")
    else if s[0] != '%' then Joined(Some([s[0]]), Unescape(s[1..]))
    else if |s| >= 3 && IsHex(s[1]) && IsHex(s[2]) then
      Joined(Some([(16 * HexValue(s[1]) + HexValue(s[2])) as char]), Unescape(s[3..]))
    else None
  }

  predicate PercentFree(s: string) {
    '%' !in s
  }

  /** Decoding keeps the length of exactly the texts that it leaves alone. */
  lemma {:induction false} UnescapeKeepsExactly(s: string)
    ensures PercentFree(s) ==> Unescape(s) == Some(s)
    ensures Unescape(s).Some? && |Unescape(s).value| == |s| ==> PercentFree(s)
  {
    if s != "" && s[0] != '%' {
      UnescapeKeepsExactly(s[1..]);
      assert s == [s[0]] + s[1..];
    }
  }

  lemma {:induction false} UnescapeOfLonger(s: string, suffix: string)
    requires StartsWithSlash(suffix)
    ensures Unescape(s + suffix) == Joined(Unescape(s), Unescape(suffix))
  {
    if s == "" {
      assert s + suffix == suffix;
      if Unescape(suffix).Some? {
        assert "" + Unescape(suffix).value == Unescape(suffix).value;
      }
    } else if s[0] != '%' {
      var longer, tail := s + suffix, s[1..];
      assert longer[0] == s[0] && longer[1..] == tail + suffix;
      UnescapeOfLonger(tail, suffix);
      JoinedThrice(Some([s[0]]), Unescape(tail), Unescape(suffix));
    } else if |s| >= 3 && IsHex(s[1]) && IsHex(s[2]) {
      var longer, tail := s + suffix, s[3..];
      assert longer[0] == s[0] && longer[1] == s[1] && longer[2] == s[2] && longer[3..] == tail + suffix;
      UnescapeOfLonger(tail, suffix);
      JoinedThrice(Some([(16 * HexValue(s[1]) + HexValue(s[2])) as char]), Unescape(tail), Unescape(suffix));
    }
  }

  /** Decoding does not touch what has no percent sign, nor look behind it. */
  lemma {:induction false} UnescapeBehindLiteral(word: string, s: string)
    requires PercentFree(word)
    ensures Unescape(word + s) == Joined(Some(word), Unescape(s))
  {
    if word == "" {
      assert word + s == s;
      if Unescape(s).Some? {
        assert word + Unescape(s).value == Unescape(s).value;
      }
    } else {
      var head, tail := [word[0]], word[1..];
      assert word == head + tail;
      assert (word + s)[1..] == tail + s;
      UnescapeBehindLiteral(tail, s);
      JoinedThrice(Some(head), Some(tail), Unescape(s));
    }
  }

  function HexDigit(n: nat): (c: char)
    requires n < 16
    ensures IsHex(c) && HexValue(c) == n
  {
    if n < 10 then n as char + '0' else (n - 10) as char + 'A'
  }

  /** Every byte written as a percent sign and two digits. */
  function Escape(s: string): string {
    if s == "" then ""
    else ['%', HexDigit(s[0] as int / 16 % 16), HexDigit(s[0] as int % 16)] + Escape(s[1..])
  }

  /** Decoding undoes encoding, whatever the bytes. */
  lemma {:induction false} UnescapeOfEscape(s: string)
    requires forall i | 0 <= i < |s| :: s[i] as int < 256
    ensures Unescape(Escape(s)) == Some(s)
  {
    if s != "" {
      var rest := Escape(s[1..]);
      UnescapeOfEscape(s[1..]);
      var code := s[0] as int;
      assert Escape(s)[3..] == rest;
      assert 16 * (code / 16 % 16) + code % 16 == code;
      assert [s[0]] + s[1..] == s;
    }
  }

  // ---- the components

  /** No query and no fragment. */
  predicate Uncut(s: string) {
    '?' !in s && '#' !in s
  }

  function BeforeQuery(url: string): (r: string)
    ensures |r| <= |url|
  {
    if url == "" || url[0] == '?' || url[0] == '#' then "" else [url[0]] + BeforeQuery(url[1..])
  }

  /** Cutting keeps the length of exactly the texts that it leaves alone. */
  lemma {:induction false} BeforeQueryKeepsExactly(url: string)
    ensures Uncut(url) ==> BeforeQuery(url) == url
    ensures |BeforeQuery(url)| == |url| ==> Uncut(url)
  {
    if url != "" {
      BeforeQueryKeepsExactly(url[1..]);
      assert url == [url[0]] + url[1..];
    }
  }

  lemma {:induction false} BeforeQueryOfLonger(s: string, suffix: string)
    ensures Uncut(s) ==> BeforeQuery(s + suffix) == s + BeforeQuery(suffix)
    ensures !Uncut(s) ==> BeforeQuery(s + suffix) == BeforeQuery(s)
  {
    if s == "" {
      assert s + suffix == suffix;
    } else {
      var head, tail := s[0], s[1..];
      assert s == [head] + tail;
      assert (s + suffix)[1..] == tail + suffix;
      BeforeQueryOfLonger(tail, suffix);
      if Uncut(s) {
        assert BeforeQuery(s + suffix) == [head] + (tail + BeforeQuery(suffix));
      }
    }
  }

  /** Where the scheme ends: the first colon, unless a slash comes earlier. */
  function SchemeEnd(url: string): (i: int)
    ensures i == -1 || 0 <= i < |url|
  {
    if url == "" || url[0] == '/' then -1
    else if url[0] == ':' then 0
    else
      var i := SchemeEnd(url[1..]);
      if i == -1 then -1 else i + 1
  }

  lemma {:induction false} SchemeEndOfLonger(s: string, suffix: string)
    requires StartsWithSlash(suffix)
    ensures SchemeEnd(s + suffix) == SchemeEnd(s)
  {
    if s == "" {
      assert s + suffix == suffix;
    } else {
      SchemeEndOfLonger(s[1..], suffix);
      assert (s + suffix)[1..] == s[1..] + suffix;
    }
  }

  /** Where the path starts behind a scheme and an authority, neither of them empty; otherwise -1. */
  function PathStart(url: string): (k: int)
    ensures k == -1 || 0 <= k <= |url|
    ensures 0 <= k < |url| ==> url[k] == '/'
  {
    var i := SchemeEnd(url);
    if i <= 0 || !("//" <= url[i + 1..]) then -1
    else
      var slash := IndexSlash(url[i + 3..]);
      var k := if slash == -1 then |url| else i + 3 + slash;
      if k == i + 3 then -1 else k
  }

  lemma {:induction false} IndexSlashOfLonger(s: string, suffix: string)
    requires StartsWithSlash(suffix)
    ensures IndexSlash(s + suffix) == if IndexSlash(s) == -1 then |s| else IndexSlash(s)
  {
    if s == "" {
      assert s + suffix == suffix;
    } else {
      IndexSlashOfLonger(s[1..], suffix);
      assert (s + suffix)[1..] == s[1..] + suffix;
    }
  }

  lemma TwoSlashesOfLonger(s: string, suffix: string)
    requires |s| >= 2
    ensures "//" <= s + suffix <==> "//" <= s
  {
    assert (s + suffix)[..2] == s[..2];
  }

  /** A suffix that starts with a slash is a part of the path, or the path is shorter than it. */
  lemma PathStartOfLonger(url: string, suffix: string)
    requires StartsWithSlash(suffix)
    ensures PathStart(url) != -1 ==> PathStart(url + suffix) == PathStart(url)
    ensures PathStart(url) == -1 ==> PathStart(url + suffix) == -1 || PathStart(url + suffix) > |url|
  {
    SchemeEndOfLonger(url, suffix);
    var i, longer := SchemeEnd(url), url + suffix;
    if i > 0 && |url| >= i + 3 {
      assert longer[i + 1..] == url[i + 1..] + suffix;
      TwoSlashesOfLonger(url[i + 1..], suffix);
      assert longer[i + 3..] == url[i + 3..] + suffix;
      IndexSlashOfLonger(url[i + 3..], suffix);
    }
  }

  /** The path of an absolute URL, decoded; nothing if a client cannot use the URL for a server. */
  function URLPath(url: string): Option<string> {
    PathOf(BeforeQuery(url))
  }

  function PathOf(base: string): Option<string> {
    var start := PathStart(base);
    if start == -1 then None else Unescape(base[start..])
  }

  /** A suffix that starts with a slash is decoded behind the URL's own path, if there is such a path. */
  lemma PathOfLonger(base: string, suffix: string)
    requires StartsWithSlash(suffix)
    ensures PathStart(base) != -1 ==> PathOf(base + suffix) == Joined(PathOf(base), Unescape(suffix))
    ensures PathStart(base) == -1 ==>
              PathOf(base) == None && (PathOf(base + suffix) == None || |PathOf(base + suffix).value| < |suffix|)
  {
    PathStartOfLonger(base, suffix);
    if PathStart(base) != -1 {
      UnescapeFrom(base, suffix, PathStart(base));
    }
  }

  lemma UnescapeFrom(base: string, suffix: string, start: nat)
    requires StartsWithSlash(suffix) && start <= |base|
    ensures Unescape((base + suffix)[start..]) == Joined(Unescape(base[start..]), Unescape(suffix))
  {
    assert (base + suffix)[start..] == base[start..] + suffix;
    UnescapeOfLonger(base[start..], suffix);
  }

  /** A path is empty or starts with a slash. */
  lemma PathIsRooted(base: string)
    ensures PathOf(base).Some? && PathOf(base).value != "" ==> PathOf(base).value[0] == '/'
  {
  }
}
