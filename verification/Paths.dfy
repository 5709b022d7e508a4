/** Slash-separated URL paths: `splitPath` and the string functions it is built from. */
module Paths {

  predicate SlashFree(s: string) {
    forall i | 0 <= i < |s| :: s[i] != '/'
  }

  /** The position of the first slash, or -1. */
  function IndexSlash(s: string): (i: int)
    ensures i == -1 <==> SlashFree(s)
    ensures i != -1 ==> 0 <= i < |s| && s[i] == '/' && SlashFree(s[..i])
  {
    if s == "" then -1
    else if s[0] == '/' then 0
    else
      var rest := IndexSlash(s[1..]);
      assert forall k | 0 < k < |s| :: s[k] == s[1..][k - 1];
      if rest == -1 then -1 else rest + 1
  }

  function TrimLeft(s: string): (t: string)
    ensures t == "" || t[0] != '/'
    ensures |t| <= |s| && t == s[|s| - |t|..]
  {
    if s != "" && s[0] == '/' then TrimLeft(s[1..]) else s
  }

  function TrimRight(s: string): (t: string)
    ensures t == "" || t[|t| - 1] != '/'
    ensures |t| <= |s| && t == s[..|t|]
  {
    if s != "" && s[|s| - 1] == '/' then TrimRight(s[..|s| - 1]) else s
  }

  /** All leading and trailing slashes removed. */
  function Trim(s: string): (t: string)
    ensures t == "" || (t[0] != '/' && t[|t| - 1] != '/')
  {
    TrimRight(TrimLeft(s))
  }

  /** The segments between the slashes of `s`; an empty string has one empty segment. */
  function Split(s: string): (parts: seq<string>)
    ensures |parts| >= 1
    ensures forall i | 0 <= i < |parts| :: SlashFree(parts[i])
  {
    if s == "" then [""]
    else if s[0] == '/' then [""] + Split(s[1..])
    else
      var rest := Split(s[1..]);
      [[s[0]] + rest[0]] + rest[1..]
  }

  function Join(parts: seq<string>): string {
    if parts == [] then ""
    else if |parts| == 1 then parts[0]
    else parts[0] + "/" + Join(parts[1..])
  }

  function SplitPath(path: string): seq<string> {
    var trimmed := Trim(path);
    if trimmed == "" then [] else Split(trimmed)
  }

  /** What a list of segments must look like to be the split of some path. */
  predicate Normalised(parts: seq<string>) {
    && (forall i | 0 <= i < |parts| :: SlashFree(parts[i]))
    && (parts != [] ==> parts[0] != "" && parts[|parts| - 1] != "")
  }

  lemma {:induction false} JoinOfSplit(s: string)
    ensures Join(Split(s)) == s
  {
    if s != "" {
      JoinOfSplit(s[1..]);
      var rest := Split(s[1..]);
      if s[0] == '/' {
        assert Split(s)[1..] == rest;
      } else {
        assert Split(s)[1..] == rest[1..];
        assert s == [s[0]] + s[1..];
      }
    }
  }

  /** A slash-free head followed by a slash is split off as one segment. */
  lemma {:induction false} SplitOfHead(head: string, tail: string)
    requires SlashFree(head)
    ensures Split(head) == [head]
    ensures Split(head + "/" + tail) == [head] + Split(tail)
  {
    if head == "" {
      assert head + "/" + tail == ['/'] + tail;
    } else {
      SplitOfHead(head[1..], tail);
      assert (head + "/" + tail)[1..] == head[1..] + "/" + tail;
      assert [head[0]] + head[1..] == head;
    }
  }

  lemma {:induction false} SplitOfJoin(parts: seq<string>)
    requires parts != []
    requires forall i | 0 <= i < |parts| :: SlashFree(parts[i])
    ensures Split(Join(parts)) == parts
  {
    var head, tail := parts[0], parts[1..];
    SplitOfHead(head, Join(tail));
    if tail != [] {
      SplitOfJoin(tail);
      assert parts == [head] + tail;
    }
  }

  /** The ends of a joined path are the ends of its first and last segment. */
  lemma {:induction false} JoinEnds(parts: seq<string>)
    requires parts != [] && parts[|parts| - 1] != ""
    ensures Join(parts) != ""
    ensures Join(parts)[|Join(parts)| - 1] == parts[|parts| - 1][|parts[|parts| - 1]| - 1]
    ensures parts[0] != "" ==> Join(parts)[0] == parts[0][0]
  {
    if |parts| > 1 {
      JoinEnds(parts[1..]);
    }
  }

  lemma TrimOfTrimmed(s: string)
    requires s == "" || (s[0] != '/' && s[|s| - 1] != '/')
    ensures Trim(s) == s
  {
  }

  /** `SplitPath` is a bijection between slash-trimmed paths and normalised segment lists. */
  lemma {:induction false} SplitPathExactly(path: string, parts: seq<string>)
    ensures SplitPath(path) == parts <==> Normalised(parts) && Trim(path) == Join(parts)
  {
    SplitPathNormalised(path);
    if Normalised(parts) && Trim(path) == Join(parts) && parts != [] {
      JoinEnds(parts);
      SplitOfJoin(parts);
    }
  }

  lemma {:induction false} SplitPathNormalised(path: string)
    ensures Normalised(SplitPath(path)) && Join(SplitPath(path)) == Trim(path)
  {
    var trimmed := Trim(path);
    if trimmed != "" {
      JoinOfSplit(trimmed);
      SplitEnds(trimmed);
    }
  }

  /** A text that neither starts nor ends with a slash has non-empty outer segments. */
  lemma {:induction false} SplitEnds(s: string)
    requires s != "" && s[|s| - 1] != '/'
    ensures Split(s)[|Split(s)| - 1] != ""
    ensures s[0] != '/' ==> Split(s)[0] != ""
  {
    if |s| > 1 {
      SplitEnds(s[1..]);
    }
  }

  lemma {:induction false} TrimLeftOfSlash(s: string)
    ensures TrimLeft("/" + s) == TrimLeft(s)
  {
  }

  lemma TrimRightOfSlash(s: string)
    ensures TrimRight(s + "/") == TrimRight(s)
  {
    assert (s + "/")[..|s + "/"| - 1] == s;
  }

  lemma {:induction false} TrimOfTrailingSlash(s: string)
    ensures Trim(s + "/") == Trim(s)
    decreases |s|
  {
    TrimRightOfSlash(s);
    if s == "" {
      assert s + "/" == "/" + s;
      TrimLeftOfSlash(s);
    } else if s[0] == '/' {
      assert (s + "/")[1..] == s[1..] + "/";
      TrimOfTrailingSlash(s[1..]);
    }
  }

  /** Leading and trailing slashes never change the segments. */
  lemma SplitPathIgnoresOuterSlashes(path: string)
    ensures SplitPath("/" + path) == SplitPath(path)
    ensures SplitPath(path + "/") == SplitPath(path)
  {
    TrimLeftOfSlash(path);
    TrimOfTrailingSlash(path);
  }

  /** A path printed from normalised segments, with a leading slash, splits back into them. */
  lemma SplitPathOfPrinted(parts: seq<string>)
    requires Normalised(parts)
    ensures SplitPath("/" + Join(parts)) == parts
  {
    SplitPathIgnoresOuterSlashes(Join(parts));
    if parts != [] {
      JoinEnds(parts);
    }
    TrimOfTrimmed(Join(parts));
    SplitPathExactly(Join(parts), parts);
  }
}
