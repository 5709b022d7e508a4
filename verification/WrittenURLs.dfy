/** What becomes of a segment and a name that are written behind a server URL. */
module WrittenURLs {
  import opened Wrappers
  import opened Paths
  import opened ClusterPaths
  import opened CleanPaths
  import opened ServerURLs

  /** Nothing is decoded in such a text, or cut off with it. */
  predicate Literal(s: string) {
    Uncut(s) && PercentFree(s)
  }

  predicate IsPrefix(prefix: string) {
    StartsWithSlash(prefix) && prefix[|prefix| - 1] == '/' && Literal(prefix)
  }

  /** The part of a written name that counts, decoded. */
  function NameRead(name: string): Option<string> {
    Unescape(BeforeQuery(name))
  }

  lemma NameReadExactly(name: string)
    ensures Literal(name) ==> NameRead(name) == Some(name)
    ensures !Literal(name) && NameRead(name).Some? ==> |NameRead(name).value| < |name|
  {
    BeforeQueryKeepsExactly(name);
    UnescapeKeepsExactly(BeforeQuery(name));
  }

  /** Behind a query or a fragment nothing counts that is written. */
  lemma WrittenBehindQuery(root: string, text: string)
    requires !Uncut(root)
    ensures URLPath(root + text) == URLPath(root)
  {
    BeforeQueryOfLonger(root, text);
  }

  /** Otherwise the path grows by the prefix and the name read, unless the root is no URL of a server. */
  lemma WrittenPath(root: string, prefix: string, name: string)
    requires Uncut(root) && IsPrefix(prefix)
    ensures URLPath(root + (prefix + name)) == Joined(URLPath(root), Joined(Some(prefix), NameRead(name)))
         || (URLPath(root) == None && IsShortPath(URLPath(root + (prefix + name)), |prefix| + |name|))
  {
    BeforeQueryKeepsExactly(root);
    BeforeQueryOfLonger(root, prefix + name);
    BeforeQueryOfLonger(prefix, name);
    WrittenBase(root, prefix, BeforeQuery(name));
  }

  lemma WrittenBase(base: string, prefix: string, name: string)
    requires IsPrefix(prefix)
    ensures PathOf(base + (prefix + name)) == Joined(PathOf(base), Joined(Some(prefix), Unescape(name)))
         || (PathOf(base) == None && IsShortPath(PathOf(base + (prefix + name)), |prefix| + |name|))
  {
    PathOfLonger(base, prefix + name);
    PathIsRooted(base + (prefix + name));
    UnescapeBehindLiteral(prefix, name);
  }

  predicate IsShortPath(path: Option<string>, bound: nat) {
    path.Some? ==> |path.value| < bound && (path.value == "" || path.value[0] == '/')
  }

  // ---- a client that takes the path as it is

  /** A slash-free name holds no second prefix. */
  lemma NoSecondPrefix(prefix: string, before: string, decoded: string, name: string)
    requires IsPrefix(prefix) && SlashFree(name) && before + (prefix + decoded) == prefix + name
    ensures before == ""
  {
    var last := |prefix| - 1;
    assert (before + (prefix + decoded))[|before| + last] == prefix[last] == '/';
    assert forall i | |prefix| <= i < |prefix + name| :: (prefix + name)[i] == name[i - |prefix|];
  }

  /** Behind what is before, the prefix and the name are read as written only if nothing is before. */
  lemma OnlyTheSuffix(before: Option<string>, prefix: string, name: string)
    requires IsPrefix(prefix) && SlashFree(name)
    ensures Joined(before, Joined(Some(prefix), NameRead(name))) == Some(prefix + name)
       <==> Literal(name) && before == Some("")
  {
    NameReadExactly(name);
    if Joined(before, Joined(Some(prefix), NameRead(name))) == Some(prefix + name) {
      NoSecondPrefix(prefix, before.value, NameRead(name).value, name);
      assert |prefix + NameRead(name).value| == |prefix + name|;
    }
    if Literal(name) && before == Some("") {
      assert "" + (prefix + name) == prefix + name;
    }
  }

  /**
   * A written URL has the path that was written exactly when the root contributes none and the name is
   * literal, or when the root has a query but is itself that address.
   */
  lemma WrittenPathExactly(root: string, prefix: string, name: string)
    requires IsPrefix(prefix) && SlashFree(name)
    ensures URLPath(root + (prefix + name)) == Some(prefix + name) <==>
            if Uncut(root) then Literal(name) && URLPath(root) == Some("") else URLPath(root) == Some(prefix + name)
  {
    if Uncut(root) {
      WrittenPath(root, prefix, name);
      OnlyTheSuffix(URLPath(root), prefix, name);
    } else {
      WrittenBehindQuery(root, prefix + name);
    }
  }

  // ---- a client that cleans it

  /** The segments of a server's own path. */
  function CleanPath(path: Option<string>): Option<seq<string>> {
    if path.Some? then Some(Cleaned(path.value)) else None
  }

  /** The root is below a cluster's address, and the name read leads back up to that address. */
  predicate ClimbsBack(own: Option<string>, word: string, name: string) {
    && own.Some? && NameRead(name).Some?
    && [word, name] <= Cleaned(own.value)
    && Walk(Cleaned(own.value) + [word], Split(NameRead(name).value)) == [word, name]
  }

  /**
   * After cleaning, the written URL has the written path exactly when the root's path cleans to nothing and
   * the name is a literal segment that cleaning keeps. The other roots that do are themselves that address,
   * with a query behind it, or below it, with a name that is decoded to the way back up.
   */
  lemma WrittenCleanExactly(root: string, word: string, name: string)
    requires Normal(word) && Literal(word)
    ensures CleanPath(URLPath(root + ("/" + word + "/" + name))) == Some([word, name]) <==>
            if !Uncut(root) then CleanPath(URLPath(root)) == Some([word, name])
            else if Literal(name) then Normal(name) && CleanPath(URLPath(root)) == Some([])
            else ClimbsBack(URLPath(root), word, name)
  {
    var prefix := "/" + word + "/";
    if Uncut(root) {
      WrittenPath(root, prefix, name);
      if URLPath(root + (prefix + name)) == Joined(URLPath(root), Joined(Some(prefix), NameRead(name))) {
        Landing(URLPath(root), word, name);
      } else {
        TooShort(URLPath(root + (prefix + name)), word, name);
      }
    } else {
      WrittenBehindQuery(root, prefix + name);
    }
  }

  lemma TooShort(path: Option<string>, word: string, name: string)
    requires IsShortPath(path, |word| + |name| + 2)
    ensures CleanPath(path) != Some([word, name])
  {
    if path.Some? {
      CleanedIsNoLonger(path.value);
      LengthOfLonger([word], name);
      assert [word] + [name] == [word, name];
    }
  }

  lemma Landing(own: Option<string>, word: string, name: string)
    requires Normal(word) && Literal(word)
    ensures CleanPath(Joined(own, Joined(Some("/" + word + "/"), NameRead(name)))) == Some([word, name]) <==>
            if Literal(name) then Normal(name) && CleanPath(own) == Some([])
            else ClimbsBack(own, word, name)
  {
    NameReadExactly(name);
    if own.Some? && NameRead(name).Some? {
      CleanedBehindSegment(own.value, word, NameRead(name).value);
      CleanedIsNormal(own.value);
      if Literal(name) {
        LandsLiterally(Cleaned(own.value), word, name);
      } else {
        LandsByClimbing(Cleaned(own.value), word, name, NameRead(name).value);
      }
    }
  }
}
